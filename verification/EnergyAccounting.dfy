/**
 Window accounting: rows are turned into timed samples, each sample's interval energy is split
 into idle, off-hours and overconsumption, and totals are kept for the window and for each day.
 */
module EnergyAccounting {
  import opened Common
  import opened TelemetryNormalization
  import opened IntervalEnergy
  import opened ShiftCalendar
  import Sorting

  const MAX_GAP_SECONDS := 900.0

  /** A row's time field: absent, present but not a timestamp, or an instant. */
  datatype Stamp = NoStamp | BadStamp | StampAt(instant: real)

  /** A telemetry row: `timestamp` wins over `_time`; `config` is what the row itself says about power. */
  datatype Row = Row(timestamp: Stamp, time: Stamp, readings: Readings, config: PowerConfig, readAt: real)

  datatype Point = Point(ts: real, row: Row)

  datatype Policy = Policy(
    zone: real -> LocalStamp,
    shifts: seq<Shift>,
    idleThreshold: Option<real>,
    overThreshold: Option<real>,
    config: Option<PowerConfig>,
    maxGap: Option<real>)

  datatype IntervalSample = IntervalSample(
    ts: real,
    local: LocalStamp,
    duration: real,
    powerKw: Option<real>,
    estimated: bool,
    current: Option<real>,
    voltage: Option<real>,
    pf: Option<real>)

  // ----- Rows to sorted points

  function RowTime(row: Row): Option<real> {
    match row.timestamp
    case StampAt(t) => Some(t)
    case BadStamp => None
    case NoStamp => if row.time.StampAt? then Some(row.time.instant) else None
  }

  function PointOf(row: Row): seq<Point> {
    match RowTime(row)
    case None => []
    case Some(t) => [Point(t, row)]
  }

  /** The rows that carry a usable time, in row order. */
  function Points(rows: seq<Row>): seq<Point> {
    if rows == [] then [] else Points(rows[..|rows| - 1]) + PointOf(rows[|rows| - 1])
  }

  predicate NotLater(a: Point, b: Point) {
    a.ts <= b.ts
  }

  function SortedPoints(rows: seq<Row>): seq<Point> {
    Sorting.SortBy(NotLater, Points(rows))
  }

  // ----- Points to interval samples

  function PayloadOf(row: Row): Payload {
    Payload(if row.timestamp.StampAt? then Some(row.timestamp.instant) else None, row.readings, row.readAt)
  }

  function ConfigOf(policy: Policy): PowerConfig {
    if policy.config.Some? then policy.config.value else DEFAULT_CONFIG
  }

  /** A missing or zero gap limit falls back to fifteen minutes. */
  function LimitsOf(policy: Policy): Limits {
    DEFAULT_LIMITS.(maxFallbackGap :=
      if policy.maxGap.Some? && policy.maxGap.value != 0.0 then policy.maxGap.value else MAX_GAP_SECONDS)
  }

  function Reading(point: Point, policy: Policy): Sample {
    Normalized(PayloadOf(point.row), ConfigOf(policy))
  }

  /** The seconds from one point to the next that count; a gap beyond the limit counts as none. */
  function CountedGap(from: Point, to: Point, policy: Policy): real {
    var gap := Max(0.0, to.ts - from.ts);
    if policy.maxGap.Some? && gap > policy.maxGap.value then 0.0 else gap
  }

  function Duration(points: seq<Point>, i: nat, policy: Policy): real
    requires i < |points|
  {
    if i + 1 < |points| then CountedGap(points[i], points[i + 1], policy) else 0.0
  }

  function Between(points: seq<Point>, i: nat, policy: Policy): Interval
    requires i + 1 < |points|
  {
    Decide(Some(Reading(points[i], policy)), Reading(points[i + 1], policy), LimitsOf(policy))
  }

  /** The power a single row suggests on its own. */
  function RowEstimate(row: Row): (Option<real>, bool) {
    var n := Normalized(PayloadOf(row), row.config);
    if n.businessPower > 0.0 then (Some(n.businessPower / 1000.0), false)
    else if n.current == None || n.voltage == None then (None, false)
    else
      var pf := if n.pfBusiness.Some? then n.pfBusiness.value else DEFAULT_LIMITS.fallbackPf;
      (Some(Max(0.0, n.current.value * n.voltage.value * pf / 1000.0)), n.pfBusiness == None)
  }

  function PowerAt(points: seq<Point>, i: nat, policy: Policy): (Option<real>, bool)
    requires i < |points|
  {
    var duration := Duration(points, i, policy);
    if i + 1 < |points| && duration > 0.0 then
      var delta := Between(points, i, policy);
      (Some(Max(delta.business * 3600.0 / duration, 0.0)), delta.energyMethod == DerivedViAssumedPf)
    else RowEstimate(points[i].row)
  }

  function SampleAt(points: seq<Point>, i: nat, policy: Policy): IntervalSample
    requires i < |points|
  {
    var n := Reading(points[i], policy);
    var power := PowerAt(points, i, policy);
    IntervalSample(points[i].ts, policy.zone(points[i].ts), Duration(points, i, policy),
                   power.0, power.1, n.current, n.voltage, n.pfBusiness)
  }

  /** The samples of the first n points. */
  function Samples(points: seq<Point>, n: nat, policy: Policy): seq<IntervalSample>
    requires n <= |points|
  {
    if n == 0 then [] else Samples(points, n - 1, policy) + [SampleAt(points, n - 1, policy)]
  }

  method BuildSamples(rows: seq<Row>, policy: Policy) returns (samples: seq<IntervalSample>)
    ensures var points := SortedPoints(rows); samples == Samples(points, |points|, policy)
  {
    hide Decide, Normalized, RowEstimate, Sorting.SortBy;
    var points: seq<Point> := [];
    for r := 0 to |rows|
      invariant points == Points(rows[..r])
    {
      assert rows[..r + 1][..r] == rows[..r];
      var ts := RowTime(rows[r]);
      if ts.None? {
        continue;
      }
      points := points + [Point(ts.value, rows[r])];
    }
    assert rows[..|rows|] == rows;
    points := Sorting.SortBy(NotLater, points);
    hide Points, RowTime;

    var normalized: seq<Sample> := [];
    for i := 0 to |points|
      invariant |normalized| == i
      invariant forall j :: 0 <= j < i ==> normalized[j] == Reading(points[j], policy)
    {
      var n := NormalizeTelemetrySample(PayloadOf(points[i].row), ConfigOf(policy));
      normalized := normalized + [n];
    }

    samples := [];
    for i := 0 to |points|
      invariant samples == Samples(points, i, policy)
    {
      var duration := 0.0;
      var power := RowEstimate(points[i].row);
      if i < |points| - 1 {
        duration := Max(0.0, points[i + 1].ts - points[i].ts);
        if policy.maxGap.Some? && duration > policy.maxGap.value {
          duration := 0.0;
        }
        var delta := ComputeIntervalEnergyDelta(Some(normalized[i]), normalized[i + 1], LimitsOf(policy));
        if duration > 0.0 {
          power := (Some(Max(delta.business * 3600.0 / duration, 0.0)), delta.energyMethod == DerivedViAssumedPf);
        }
      }
      assert duration == Duration(points, i, policy) && power == PowerAt(points, i, policy);
      samples := samples + [IntervalSample(points[i].ts, policy.zone(points[i].ts), duration, power.0, power.1,
                                           normalized[i].current, normalized[i].voltage, normalized[i].pfBusiness)];
    }
  }

  // ----- Losses

  datatype Loss = Loss(idle: real, offHours: real, over: real)
  {
    function Sum(): real { idle + offHours + over }
  }

  function SplitLoss(duration: real, energy: real, current: Option<real>, policy: Policy, inside: bool): Loss {
    if duration <= 0.0 || energy <= 0.0 then Loss(0.0, 0.0, 0.0)
    else if !inside then Loss(0.0, energy, 0.0)
    else if policy.idleThreshold.Some? && current.Some? && 0.0 < current.value <= policy.idleThreshold.value then
      Loss(energy, 0.0, 0.0)
    else if policy.overThreshold.Some? && current.Some?
            && current.value > policy.overThreshold.value && current.value > 0.0 then
      Loss(0.0, 0.0, energy)
    else Loss(0.0, 0.0, 0.0)
  }

  // ----- Totals

  datatype Totals = Totals(
    energy: real, idle: real, offHours: real, over: real, loss: real,
    idleSeconds: int, offHoursSeconds: int, overSeconds: int, pfEstimated: bool)

  const ZERO := Totals(0.0, 0.0, 0.0, 0.0, 0.0, 0, 0, 0, false)

  function Add(a: Totals, b: Totals): Totals {
    Totals(a.energy + b.energy, a.idle + b.idle, a.offHours + b.offHours, a.over + b.over, a.loss + b.loss,
           a.idleSeconds + b.idleSeconds, a.offHoursSeconds + b.offHoursSeconds, a.overSeconds + b.overSeconds,
           a.pfEstimated || b.pfEstimated)
  }

  /** What one interval adds to a total; a duration counts, in whole seconds, where its loss is positive. */
  function Charge(energy: real, loss: Loss, duration: real, estimated: bool): Totals {
    var seconds := duration.Floor;
    Totals(energy, loss.idle, loss.offHours, loss.over, loss.Sum(),
           if loss.idle > 0.0 then seconds else 0,
           if loss.offHours > 0.0 then seconds else 0,
           if loss.over > 0.0 then seconds else 0,
           estimated)
  }

  function IntervalKwh(s: IntervalSample): real {
    match s.powerKw
    case None => 0.0
    case Some(kw) => Max(0.0, kw * s.duration / 3600.0)
  }

  predicate Counts(s: IntervalSample) {
    s.duration > 0.0 && s.powerKw.Some? && IntervalKwh(s) > 0.0
  }

  function ChargeOf(s: IntervalSample, policy: Policy): Totals {
    var energy := IntervalKwh(s);
    Charge(energy, SplitLoss(s.duration, energy, s.current, policy, InsideShift(s.local, policy.shifts)),
           s.duration, s.estimated)
  }

  datatype Window = Window(total: Totals, byDay: map<int, Totals>)

  const EMPTY := Window(ZERO, map[])

  function DayTotals(byDay: map<int, Totals>, day: int): Totals {
    if day in byDay then byDay[day] else ZERO
  }

  /** The charge lands once on the window and once on its day. */
  function Booked(w: Window, day: int, c: Totals): Window {
    Window(Add(w.total, c), w.byDay[day := Add(DayTotals(w.byDay, day), c)])
  }

  function Post(w: Window, s: IntervalSample, policy: Policy): Window {
    if !Counts(s) then w else Booked(w, s.local.ordinal, ChargeOf(s, policy))
  }

  /** The accounting of a list of samples. */
  function Account(samples: seq<IntervalSample>, policy: Policy): Window {
    if samples == [] then EMPTY
    else Post(Account(samples[..|samples| - 1], policy), samples[|samples| - 1], policy)
  }

  /** The accounting of a window of rows. */
  function WindowOf(points: seq<Point>, policy: Policy): Window {
    Account(Samples(points, |points|, policy), policy)
  }

  /** A mutable set of totals. */
  class WindowTotals {
    var energy: real
    var idle: real
    var offHours: real
    var over: real
    var loss: real
    var idleSeconds: int
    var offHoursSeconds: int
    var overSeconds: int
    var pfEstimated: bool

    ghost function View(): Totals
      reads this
    {
      Totals(energy, idle, offHours, over, loss, idleSeconds, offHoursSeconds, overSeconds, pfEstimated)
    }

    constructor ()
      ensures View() == ZERO
    {
      energy, idle, offHours, over, loss := 0.0, 0.0, 0.0, 0.0, 0.0;
      idleSeconds, offHoursSeconds, overSeconds, pfEstimated := 0, 0, 0, false;
    }

    method AddInterval(kwh: real, l: Loss, duration: real, estimated: bool)
      modifies this
      ensures View() == Add(old(View()), Charge(kwh, l, duration, estimated))
    {
      energy := energy + kwh;
      idle := idle + l.idle;
      offHours := offHours + l.offHours;
      over := over + l.over;
      loss := loss + (l.idle + l.offHours + l.over);
      if l.idle > 0.0 {
        idleSeconds := idleSeconds + duration.Floor;
      }
      if l.offHours > 0.0 {
        offHoursSeconds := offHoursSeconds + duration.Floor;
      }
      if l.over > 0.0 {
        overSeconds := overSeconds + duration.Floor;
      }
      if estimated {
        pfEstimated := true;
      }
    }
  }

  /** The running account of a window: one set of totals for the window, and one for each local day. */
  class WindowAccounting {
    var total: WindowTotals
    var byDay: map<int, WindowTotals>
    var samples: nat
    ghost var Repr: set<object>

    ghost predicate Valid()
      reads this, Repr
    {
      && this in Repr && total in Repr
      && (forall d :: d in byDay ==> byDay[d] in Repr && byDay[d] != total)
      && (forall d, e :: d in byDay && e in byDay && d != e ==> byDay[d] != byDay[e])
    }

    ghost function View(): Window
      requires Valid()
      reads this, Repr
    {
      Window(total.View(), map d | d in byDay :: byDay[d].View())
    }

    constructor ()
      ensures Valid() && fresh(Repr) && View() == EMPTY
    {
      var t := new WindowTotals();
      total, byDay, samples := t, map[], 0;
      Repr := {this, t};
    }

    /** The day's totals, created empty on first use. */
    method SetDefault(day: int) returns (t: WindowTotals)
      requires Valid()
      modifies this
      ensures Valid() && fresh(Repr - old(Repr)) && samples == old(samples)
      ensures day in byDay && byDay[day] == t && total == old(total)
      ensures byDay.Keys == old(byDay.Keys) + {day}
      ensures forall d :: d in old(byDay) ==> byDay[d] == old(byDay[d])
      ensures day !in old(byDay) ==> fresh(t) && t.View() == ZERO
    {
      if day in byDay {
        t := byDay[day];
      } else {
        t := new WindowTotals();
        byDay := byDay[day := t];
        Repr := Repr + {t};
      }
    }

    /** Books one interval on its day and on the window. */
    method Book(bucket: int, energy: real, loss: Loss, duration: real, estimated: bool)
      requires Valid()
      modifies Repr
      ensures Valid() && fresh(Repr - old(Repr)) && samples == old(samples)
      ensures View() == Booked(old(View()), bucket, Charge(energy, loss, duration, estimated))
    {
      hide Charge, Add;
      ghost var before := View();
      ghost var c := Charge(energy, loss, duration, estimated);
      var day := SetDefault(bucket);
      assert day.View() == DayTotals(before.byDay, bucket);
      day.AddInterval(energy, loss, duration, estimated);
      assert total.View() == before.total;
      total.AddInterval(energy, loss, duration, estimated);
      assert forall d :: d in byDay ==> byDay[d].View() == Booked(before, bucket, c).byDay[d];
      assert View().byDay == Booked(before, bucket, c).byDay;
    }

    method Record(s: IntervalSample, policy: Policy)
      requires Valid()
      modifies Repr
      ensures Valid() && fresh(Repr - old(Repr)) && samples == old(samples)
      ensures View() == Post(old(View()), s, policy)
    {
      hide InsideShift, SplitLoss, Charge;
      if s.duration <= 0.0 || s.powerKw.None? {
        return;
      }
      var energy := Max(0.0, s.powerKw.value * s.duration / 3600.0);
      if energy <= 0.0 {
        return;
      }
      PowerBehindEnergy(s);
      var running := s.powerKw.value > 0.0 || CarriesCurrent(s);
      if !running {
        assert false;
        return;
      }
      var inside := IsInsideShift(s.local, policy.shifts);
      var loss := SplitLoss(s.duration, energy, s.current, policy, inside);
      assert energy == IntervalKwh(s) && inside == InsideShift(s.local, policy.shifts);
      assert loss == SplitLoss(s.duration, IntervalKwh(s), s.current, policy, InsideShift(s.local, policy.shifts));
      assert ChargeOf(s, policy) == Charge(energy, loss, s.duration, s.estimated);
      Book(s.local.ordinal, energy, loss, s.duration, s.estimated);
    }
  }

  predicate CarriesCurrent(s: IntervalSample) {
    s.current.Some? && s.current.value > 0.0
  }

  lemma {:induction false} PowerBehindEnergy(s: IntervalSample)
    requires s.duration > 0.0 && s.powerKw.Some? && s.powerKw.value * s.duration / 3600.0 > 0.0
    ensures s.powerKw.value > 0.0
  {
  }

  method AggregateWindow(rows: seq<Row>, policy: Policy) returns (accounting: WindowAccounting)
    ensures accounting.Valid() && fresh(accounting.Repr)
    ensures accounting.View() == WindowOf(SortedPoints(rows), policy)
    ensures accounting.samples == |SortedPoints(rows)|
  {
    hide SampleAt, Post, Sorting.SortBy, Points;
    accounting := new WindowAccounting();
    var samples := BuildSamples(rows, policy);
    SampleCount(SortedPoints(rows), |SortedPoints(rows)|, policy);
    accounting.samples := |samples|;
    for i := 0 to |samples|
      invariant accounting.Valid() && fresh(accounting.Repr) && accounting.samples == |samples|
      invariant accounting.View() == Account(samples[..i], policy)
    {
      assert samples[..i + 1][..i] == samples[..i];
      accounting.Record(samples[i], policy);
    }
    assert samples[..|samples|] == samples;
  }

  lemma {:induction false} SampleCount(points: seq<Point>, n: nat, policy: Policy)
    requires n <= |points|
    ensures |Samples(points, n, policy)| == n
    ensures forall i :: 0 <= i < n ==> Samples(points, n, policy)[i] == SampleAt(points, i, policy)
  {
    hide SampleAt;
    if n > 0 {
      SampleCount(points, n - 1, policy);
    }
  }
}
