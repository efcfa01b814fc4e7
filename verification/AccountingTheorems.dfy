/** What window accounting promises: additivity, refinement to pairs of rows, and conservation. */
module AccountingTheorems {
  import opened Common
  import opened TelemetryNormalization
  import opened IntervalEnergy
  import opened ShiftCalendar
  import opened EnergyAccounting
  import IntervalProperties
  import Sorting

  // ----- Additivity

  /** Pointwise sum of two windows. */
  function Merge(a: Window, b: Window): Window {
    Window(Add(a.total, b.total),
           map d | d in a.byDay.Keys + b.byDay.Keys :: Add(DayTotals(a.byDay, d), DayTotals(b.byDay, d)))
  }

  lemma {:induction false} AddAssociates(a: Totals, b: Totals, c: Totals)
    ensures Add(Add(a, b), c) == Add(a, Add(b, c))
    ensures Add(a, ZERO) == a && Add(ZERO, a) == a
  {
  }

  lemma {:induction false} MergeEmpty(w: Window)
    ensures Merge(w, EMPTY) == w
  {
    forall d | d in w.byDay ensures Add(w.byDay[d], ZERO) == w.byDay[d] {
      AddAssociates(w.byDay[d], ZERO, ZERO);
    }
    AddAssociates(w.total, ZERO, ZERO);
    assert Merge(w, EMPTY).byDay == w.byDay;
  }

  lemma {:induction false} MergeBooked(a: Window, b: Window, day: int, c: Totals)
    ensures Merge(a, Booked(b, day, c)) == Booked(Merge(a, b), day, c)
  {
    hide Add;
    AddAssociates(a.total, b.total, c);
    AddAssociates(DayTotals(a.byDay, day), DayTotals(b.byDay, day), c);
    AddAssociates(ZERO, ZERO, ZERO);
    assert DayTotals(Merge(a, b).byDay, day) == Add(DayTotals(a.byDay, day), DayTotals(b.byDay, day));
    assert Merge(a, Booked(b, day, c)).byDay == Booked(Merge(a, b), day, c).byDay;
  }

  /** Accounting distributes over concatenation. */
  lemma {:induction false} AccountAppend(xs: seq<IntervalSample>, ys: seq<IntervalSample>, policy: Policy)
    ensures Account(xs + ys, policy) == Merge(Account(xs, policy), Account(ys, policy))
  {
    hide ChargeOf, Counts, Merge, Booked;
    if ys == [] {
      assert xs + ys == xs;
      MergeEmpty(Account(xs, policy));
    } else {
      var init, last := ys[..|ys| - 1], ys[|ys| - 1];
      assert (xs + ys)[..|xs + ys| - 1] == xs + init;
      AccountAppend(xs, init, policy);
      MergeBooked(Account(xs, policy), Account(init, policy), last.local.ordinal, ChargeOf(last, policy));
    }
  }

  lemma {:induction false} SampleAtPrefix(points: seq<Point>, k: nat, i: nat, policy: Policy)
    requires i < k < |points|
    ensures SampleAt(points[..k + 1], i, policy) == SampleAt(points, i, policy)
  {
    hide Decide, Normalized, RowEstimate;
    assert points[..k + 1][i] == points[i] && points[..k + 1][i + 1] == points[i + 1];
  }

  lemma {:induction false} SampleAtSuffix(points: seq<Point>, k: nat, i: nat, policy: Policy)
    requires k + i < |points|
    ensures SampleAt(points[k..], i, policy) == SampleAt(points, k + i, policy)
  {
    hide Decide, Normalized, RowEstimate;
    assert points[k..][i] == points[k + i];
    assert i + 1 < |points[k..]| ==> points[k..][i + 1] == points[k + i + 1];
  }

  /** The shared sample has no duration at the end of the first half. */
  lemma {:induction false} SamplesCut(points: seq<Point>, k: nat, policy: Policy)
    requires k < |points|
    ensures var left, right := points[..k + 1], points[k..];
      && Samples(points, |points|, policy) == Samples(left, k, policy) + Samples(right, |right|, policy)
      && SampleAt(left, k, policy).duration == 0.0
  {
    hide Decide, Normalized, RowEstimate, PowerAt;
    var left, right := points[..k + 1], points[k..];
    SampleCount(points, |points|, policy);
    SampleCount(left, k, policy);
    SampleCount(right, |right|, policy);
    forall i | 0 <= i < k ensures SampleAt(left, i, policy) == SampleAt(points, i, policy) {
      SampleAtPrefix(points, k, i, policy);
    }
    forall i | 0 <= i < |right| ensures SampleAt(right, i, policy) == SampleAt(points, k + i, policy) {
      SampleAtSuffix(points, k, i, policy);
    }
    hide SampleAt;
    assert Samples(points, |points|, policy) == Samples(left, k, policy) + Samples(right, |right|, policy);
  }

  lemma {:induction false} ShortensByLast(samples: seq<IntervalSample>, policy: Policy)
    requires samples != [] && samples[|samples| - 1].duration == 0.0
    ensures Account(samples, policy) == Account(samples[..|samples| - 1], policy)
  {
  }

  /** Cutting time-ordered points at a shared one and adding both halves accounts for the whole. */
  lemma {:induction false} WindowAdditive(points: seq<Point>, k: nat, policy: Policy)
    requires k < |points|
    ensures WindowOf(points, policy) == Merge(WindowOf(points[..k + 1], policy), WindowOf(points[k..], policy))
  {
    hide Merge, SampleAt, Account;
    var left, right := points[..k + 1], points[k..];
    SamplesCut(points, k, policy);
    AccountAppend(Samples(left, k, policy), Samples(right, |right|, policy), policy);
    var whole := Samples(left, k + 1, policy);
    assert whole[..|whole| - 1] == Samples(left, k, policy);
    ShortensByLast(whole, policy);
  }

  lemma {:induction false} PointsAppend(rows: seq<Row>, more: seq<Row>)
    ensures Points(rows + more) == Points(rows) + Points(more)
  {
    if more == [] {
      assert rows + more == rows;
    } else {
      var init := more[..|more| - 1];
      assert (rows + more)[..|rows + more| - 1] == rows + init;
      PointsAppend(rows, init);
    }
  }

  lemma {:induction false} CutConcatenation<T>(before: seq<T>, shared: T, after: seq<T>)
    ensures var whole, j := before + ([shared] + after), |before|;
      whole[..j + 1] == before + [shared] && whole[j..] == [shared] + after
  {
  }

  lemma {:induction false} PointsOfOne(row: Row)
    ensures Points([row]) == PointOf(row)
  {
    assert [row][..0] == [];
  }

  lemma {:induction false} PointsCut(rows: seq<Row>, k: nat)
    requires k < |rows| && RowTime(rows[k]).Some?
    ensures var j := |Points(rows[..k])|;
      && j < |Points(rows)|
      && Points(rows[..k + 1]) == Points(rows)[..j + 1]
      && Points(rows[k..]) == Points(rows)[j..]
  {
    hide Points, RowTime;
    assert rows[..k + 1] == rows[..k] + [rows[k]] && rows[k..] == [rows[k]] + rows[k + 1..];
    assert rows == rows[..k] + rows[k..];
    PointsAppend(rows[..k], [rows[k]]);
    PointsAppend([rows[k]], rows[k + 1..]);
    PointsAppend(rows[..k], rows[k..]);
    PointsOfOne(rows[k]);
    CutConcatenation(Points(rows[..k]), Point(RowTime(rows[k]).value, rows[k]), Points(rows[k + 1..]));
  }

  /**
   Window additivity over rows: for rows in time order, cut at a row k that carries a usable time, the
   accounting of the whole is the pointwise sum, totals and days alike, of the accounting of the rows up
   to and including k and of the rows from k on. Rows without a usable time may stand anywhere.
   */
  lemma {:induction false} RowsAdditive(rows: seq<Row>, k: nat, policy: Policy)
    requires k < |rows| && RowTime(rows[k]).Some?
    requires Sorting.Sorted(NotLater, Points(rows))
    ensures WindowOf(SortedPoints(rows), policy) ==
            Merge(WindowOf(SortedPoints(rows[..k + 1]), policy), WindowOf(SortedPoints(rows[k..]), policy))
    ensures |SortedPoints(rows)| + 1 == |SortedPoints(rows[..k + 1])| + |SortedPoints(rows[k..])|
  {
    hide WindowOf, Merge, PointOf, RowTime, Points, NotLater, Sorting.Sorted, Sorting.SortBy;
    var points, j := Points(rows), |Points(rows[..k])|;
    PointsCut(rows, k);
    Sorting.SortedSplits(NotLater, points, j);
    Sorting.SortFixesSorted(NotLater, points);
    Sorting.SortFixesSorted(NotLater, points[..j + 1]);
    Sorting.SortFixesSorted(NotLater, points[j..]);
    WindowAdditive(points, j, policy);
  }

  // ----- Refinement to pairs

  /** A gap counts exactly when it is positive and not beyond the limit. */
  lemma {:induction false} CountedGapIff(from: Point, to: Point, policy: Policy)
    requires policy.maxGap.Some? ==> policy.maxGap.value >= 0.0
    ensures var gap := to.ts - from.ts;
      CountedGap(from, to, policy) ==
        if gap > 0.0 && (policy.maxGap.Some? ==> gap <= policy.maxGap.value) then gap else 0.0
  {
  }

  /** The business energy of the i-th adjacent pair, when its gap counts. */
  function PairKwh(points: seq<Point>, i: nat, policy: Policy): real
    requires i + 1 < |points|
  {
    if CountedGap(points[i], points[i + 1], policy) > 0.0 then Between(points, i, policy).business else 0.0
  }

  /** What the machine was doing: the one loss, if any, that owns an interval starting at the point. */
  datatype Use = OffHoursUse | IdleUse | OverUse | OrdinaryUse

  function UseAt(local: LocalStamp, current: Option<real>, policy: Policy): Use {
    if !InsideShift(local, policy.shifts) then OffHoursUse
    else if current == None || current.value <= 0.0 then OrdinaryUse
    else if policy.idleThreshold.Some? && current.value <= policy.idleThreshold.value then IdleUse
    else if policy.overThreshold.Some? && current.value > policy.overThreshold.value then OverUse
    else OrdinaryUse
  }

  function UseOf(point: Point, policy: Policy): Use {
    UseAt(policy.zone(point.ts), Reading(point, policy).current, policy)
  }

  /** Energy and whole seconds, once, under the use that owns them. */
  function Under(use: Use, kwh: real, seconds: int): Totals {
    Totals(kwh,
           if use == IdleUse then kwh else 0.0,
           if use == OffHoursUse then kwh else 0.0,
           if use == OverUse then kwh else 0.0,
           if use == OrdinaryUse then 0.0 else kwh,
           if use == IdleUse then seconds else 0,
           if use == OffHoursUse then seconds else 0,
           if use == OverUse then seconds else 0,
           false)
  }

  /** What the i-th pair contributes. */
  function PairTotals(points: seq<Point>, i: nat, policy: Policy): Totals
    requires i + 1 < |points|
  {
    var kwh := PairKwh(points, i, policy);
    Under(UseOf(points[i], policy), kwh,
          if kwh > 0.0 then CountedGap(points[i], points[i + 1], policy).Floor else 0)
  }

  datatype Days = EveryDay | Only(day: int)

  predicate Takes(days: Days, day: int) {
    days == EveryDay || days == Only(day)
  }

  /** The contributions of those of the first n pairs that start on one of the days. */
  function PairSum(points: seq<Point>, n: nat, policy: Policy, days: Days): Totals
    requires n == 0 || n < |points|
  {
    if n == 0 then ZERO
    else
      var before := PairSum(points, n - 1, policy, days);
      if Takes(days, policy.zone(points[n - 1].ts).ordinal)
        then Add(before, PairTotals(points, n - 1, policy)) else before
  }

  lemma {:induction false} DivideThenMultiply(x: real, d: real)
    requires d > 0.0
    ensures (x * 3600.0 / d) * d / 3600.0 == x
    ensures x >= 0.0 ==> x * 3600.0 / d >= 0.0
  {
    assert (x * 3600.0 / d) * d == x * 3600.0;
  }

  /** The power factor is never assumed in a window: the option that would allow it stays off. */
  lemma {:induction false} PowerFactorNeverAssumed(prev: Sample, cur: Sample, policy: Policy)
    ensures Decide(Some(prev), cur, LimitsOf(policy)).energyMethod != DerivedViAssumedPf
  {
  }

  /** Dividing by the duration and multiplying it back leaves exactly the pair's business energy. */
  lemma {:induction false} SampleCarriesEnergy(points: seq<Point>, i: nat, policy: Policy)
    requires i < |points|
    ensures var s := SampleAt(points, i, policy);
      && (Counts(s) ==> i + 1 < |points| && !s.estimated)
      && (i + 1 < |points| ==>
            (Counts(s) <==> PairKwh(points, i, policy) > 0.0) && PairKwh(points, i, policy) >= 0.0
            && (Counts(s) ==> IntervalKwh(s) == PairKwh(points, i, policy)
                              && s.duration == CountedGap(points[i], points[i + 1], policy)))
  {
    hide Decide, Normalized, RowEstimate;
    if i + 1 < |points| {
      var prev, cur := Reading(points[i], policy), Reading(points[i + 1], policy);
      IntervalProperties.CreditIsAllOrNothing(Some(prev), cur, LimitsOf(policy));
      PowerFactorNeverAssumed(prev, cur, policy);
      if Duration(points, i, policy) > 0.0 {
        DivideThenMultiply(Between(points, i, policy).business, Duration(points, i, policy));
      }
    }
  }

  lemma {:induction false} SamplePlace(points: seq<Point>, i: nat, policy: Policy)
    requires i < |points|
    ensures SampleAt(points, i, policy).local == policy.zone(points[i].ts)
    ensures SampleAt(points, i, policy).current == Reading(points[i], policy).current
  {
  }

  /** What a sample adds to the account. */
  function Contribution(s: IntervalSample, policy: Policy): Totals {
    if Counts(s) then ChargeOf(s, policy) else ZERO
  }

  lemma {:induction false} ChargeIsUnderUse(s: IntervalSample, policy: Policy)
    requires Counts(s) && !s.estimated
    ensures ChargeOf(s, policy) == Under(UseAt(s.local, s.current, policy), IntervalKwh(s), s.duration.Floor)
  {
    hide InsideShift, IntervalKwh;
  }

  lemma {:induction false} NothingUnder(use: Use)
    ensures Under(use, 0.0, 0) == ZERO
  {
  }

  lemma {:induction false} SampleCarriesPair(points: seq<Point>, i: nat, policy: Policy)
    requires i + 1 < |points|
    ensures Contribution(SampleAt(points, i, policy), policy) == PairTotals(points, i, policy)
  {
    hide SampleAt, CountedGap, PairKwh, Reading, IntervalKwh, Under, UseAt, ChargeOf, Counts;
    SampleCarriesEnergy(points, i, policy);
    SamplePlace(points, i, policy);
    NothingUnder(UseOf(points[i], policy));
    var s := SampleAt(points, i, policy);
    if Counts(s) {
      ChargeIsUnderUse(s, policy);
    }
  }

  lemma {:induction false} PostAdds(w: Window, s: IntervalSample, policy: Policy, day: int)
    ensures var c := Contribution(s, policy);
      && Post(w, s, policy).total == Add(w.total, c)
      && DayTotals(Post(w, s, policy).byDay, day) ==
           if s.local.ordinal == day then Add(DayTotals(w.byDay, day), c) else DayTotals(w.byDay, day)
  {
    hide ChargeOf, Counts;
    AddAssociates(w.total, ZERO, ZERO);
    AddAssociates(DayTotals(w.byDay, day), ZERO, ZERO);
  }

  lemma {:induction false} PairSumStep(points: seq<Point>, n: nat, policy: Policy, day: int)
    requires 0 < n < |points|
    ensures PairSum(points, n, policy, EveryDay) ==
            Add(PairSum(points, n - 1, policy, EveryDay), PairTotals(points, n - 1, policy))
    ensures PairSum(points, n, policy, Only(day)) ==
            if policy.zone(points[n - 1].ts).ordinal == day
            then Add(PairSum(points, n - 1, policy, Only(day)), PairTotals(points, n - 1, policy))
            else PairSum(points, n - 1, policy, Only(day))
  {
    hide Add, PairTotals;
  }

  lemma {:induction false} AccountStep(points: seq<Point>, n: nat, policy: Policy)
    requires 0 < n <= |points|
    ensures Account(Samples(points, n, policy), policy) ==
            Post(Account(Samples(points, n - 1, policy), policy), SampleAt(points, n - 1, policy), policy)
  {
    hide Post, SampleAt;
    var samples := Samples(points, n, policy);
    assert samples[..|samples| - 1] == Samples(points, n - 1, policy);
  }

  lemma {:induction false} NoPairs(points: seq<Point>, policy: Policy, days: Days, day: int)
    ensures var w := Account(Samples(points, 0, policy), policy); w.total == ZERO && DayTotals(w.byDay, day) == ZERO
    ensures PairSum(points, 0, policy, days) == ZERO
  {
  }

  lemma {:induction false} AccountIsPairSum(points: seq<Point>, n: nat, policy: Policy, day: int)
    requires n == 0 || n < |points|
    ensures Account(Samples(points, n, policy), policy).total == PairSum(points, n, policy, EveryDay)
    ensures DayTotals(Account(Samples(points, n, policy), policy).byDay, day) == PairSum(points, n, policy, Only(day))
  {
    hide *;
    if n == 0 {
      NoPairs(points, policy, EveryDay, day);
      NoPairs(points, policy, Only(day), day);
    } else {
      AccountIsPairSum(points, n - 1, policy, day);
      SampleCarriesPair(points, n - 1, policy);
      PostAdds(Account(Samples(points, n - 1, policy), policy), SampleAt(points, n - 1, policy), policy, day);
      SamplePlace(points, n - 1, policy);
      AccountStep(points, n, policy);
      PairSumStep(points, n, policy, day);
    }
  }

  /**
   The window's account is exactly, field by field, the sum over adjacent sorted pairs of the interval
   decision's business energy, where the gap counts, booked under what the machine was doing when the pair
   started; and each day's account is that sum over the pairs that start on it. What a single row suggests on
   its own never contributes, and no total is ever flagged as resting on an assumed power factor.
   */
  lemma {:induction false} WindowRefinesToPairs(points: seq<Point>, policy: Policy, day: int)
    requires points != []
    ensures WindowOf(points, policy).total == PairSum(points, |points| - 1, policy, EveryDay)
    ensures DayTotals(WindowOf(points, policy).byDay, day) == PairSum(points, |points| - 1, policy, Only(day))
  {
    hide SampleAt, PairSum, Counts, ChargeOf, Add, Account, Samples;
    var n := |points|;
    AccountIsPairSum(points, n - 1, policy, day);
    AccountStep(points, n, policy);
    SampleCarriesEnergy(points, n - 1, policy);
  }

  /** With a gap limit set, no pair beyond it contributes anything to the window. */
  lemma {:induction false} CountedPairsWithinGap(points: seq<Point>, i: nat, policy: Policy)
    requires i + 1 < |points|
    ensures PairTotals(points, i, policy) != ZERO ==>
              0.0 < points[i + 1].ts - points[i].ts
              && (policy.maxGap.Some? ==> points[i + 1].ts - points[i].ts <= policy.maxGap.value)
  {
    hide Decide, Normalized;
    NothingUnder(UseOf(points[i], policy));
  }

  /** A row of a metered device. */
  function MeterRow(at: real, watts: real, counter: real): Row {
    Row(StampAt(at), NoStamp, map[ActivePower := watts, EnergyKwh := counter], DEFAULT_CONFIG, at)
  }

  lemma {:induction false} MeterRowReads(at: real, watts: real, counter: real, policy: Policy)
    requires policy.config == None
    ensures Reading(Point(at, MeterRow(at, watts, counter)), policy)
            == IntervalProperties.MeterSample(at, watts, counter)
  {
  }

  lemma {:induction false} TwoRows(a: Row, b: Row)
    requires RowTime(a).Some? && RowTime(b).Some? && RowTime(a).value <= RowTime(b).value
    ensures SortedPoints([a, b]) == [Point(RowTime(a).value, a), Point(RowTime(b).value, b)]
  {
    hide Points, RowTime, Sorting.SortBy;
    assert [a, b] == [a] + [b];
    PointsAppend([a], [b]);
    PointsOfOne(a);
    PointsOfOne(b);
    Sorting.SortFixesSorted(NotLater, Points([a, b]));
  }

  lemma {:induction false} EnergyOfTwo(points: seq<Point>, policy: Policy)
    requires |points| == 2
    ensures WindowOf(points, policy).total.energy == PairKwh(points, 0, policy)
  {
    hide WindowOf, PairKwh, CountedGap, UseOf;
    WindowRefinesToPairs(points, policy, 0);
    assert PairSum(points, 0, policy, EveryDay) == ZERO;
  }

  lemma {:induction false} StuckPair(a: Point, b: Point, watts: real, counter: real, policy: Policy)
    requires b.ts > a.ts && watts > 0.0 && policy.config == None
    requires a.row == MeterRow(a.ts, watts, counter) && b.row == MeterRow(b.ts, watts, counter)
    ensures PairKwh([a, b], 0, policy) ==
              if policy.maxGap.Some? && b.ts - a.ts > policy.maxGap.value then 0.0
              else watts * Hours(b.ts - a.ts) / 1000.0
  {
    hide Decide, Reading, Hours, IntervalProperties.MeterSample;
    MeterRowReads(a.ts, watts, counter, policy);
    MeterRowReads(b.ts, watts, counter, policy);
    IntervalProperties.StuckMeterBillsTheGap(a.ts, b.ts - a.ts, watts, counter, LimitsOf(policy));
    assert a.ts + (b.ts - a.ts) == b.ts;
  }

  /**
   A meter that stands still while the machine draws power: the window bills full power over the gap between the
   two rows, however long, unless a gap limit is set and the gap exceeds it.
   */
  lemma {:induction false} StuckMeterWindow(start: real, gap: real, watts: real, counter: real, policy: Policy)
    requires gap > 0.0 && watts > 0.0 && policy.config == None
    ensures var rows := [MeterRow(start, watts, counter), MeterRow(start + gap, watts, counter)];
      WindowOf(SortedPoints(rows), policy).total.energy ==
        if policy.maxGap.Some? && gap > policy.maxGap.value then 0.0 else watts * Hours(gap) / 1000.0
  {
    hide WindowOf, PairKwh, SortedPoints, Hours;
    var a, b := MeterRow(start, watts, counter), MeterRow(start + gap, watts, counter);
    TwoRows(a, b);
    StuckPair(Point(start, a), Point(start + gap, b), watts, counter, policy);
    EnergyOfTwo([Point(start, a), Point(start + gap, b)], policy);
    assert (start + gap) - start == gap;
  }

  /** For rows that carry `timestamp`, the decision's elapsed time is the gap the loop counts. */
  lemma {:induction false} StampedRowsAgreeOnTime(points: seq<Point>, i: nat, policy: Policy)
    requires i + 1 < |points|
    requires forall j :: i <= j <= i + 1 ==> points[j].row.timestamp == StampAt(points[j].ts)
    requires Duration(points, i, policy) > 0.0
    ensures Between(points, i, policy).elapsed == Duration(points, i, policy)
    ensures Between(points, i, policy).Credited() ==> Between(points, i, policy).coverage == Duration(points, i, policy)
  {
    hide SampleOf, RawOf, PayloadFlags, FallbackOf, Judge;
    var prev, cur := Reading(points[i], policy), Reading(points[i + 1], policy);
    ReadingTime(points[i], policy);
    ReadingTime(points[i + 1], policy);
    IntervalProperties.CreditIsAllOrNothing(Some(prev), cur, LimitsOf(policy));
  }

  lemma {:induction false} ReadingTime(point: Point, policy: Policy)
    requires point.row.timestamp == StampAt(point.ts)
    ensures Reading(point, policy).timestamp == point.ts
  {
  }

  // ----- Agreement with the meter

  function SamplesOf(points: seq<Point>, policy: Policy): seq<Sample> {
    seq(|points|, i requires 0 <= i < |points| => Reading(points[i], policy))
  }

  lemma {:induction false} PairSumIsBusinessSum(points: seq<Point>, n: nat, policy: Policy)
    requires n == 0 || n < |points|
    requires forall i: nat :: i + 1 < |points| ==> CountedGap(points[i], points[i + 1], policy) > 0.0
    ensures PairSum(points, n, policy, EveryDay).energy
         == IntervalProperties.BusinessSum(SamplesOf(points, policy), n, LimitsOf(policy))
  {
    hide Decide, Normalized, CountedGap;
    if n > 0 {
      PairSumIsBusinessSum(points, n - 1, policy);
    }
  }

  /**
   A window without uncounted gaps whose every interval is settled by the counter reports the meter's own
   difference, up to one noise floor for each interval that stayed within it.
   */
  lemma {:induction false} WindowMatchesMeter(points: seq<Point>, policy: Policy)
    requires |points| >= 2
    requires forall i: nat :: i + 1 < |points| ==> CountedGap(points[i], points[i + 1], policy) > 0.0
    requires IntervalProperties.SettledByCounter(SamplesOf(points, policy), LimitsOf(policy))
    ensures var first, last := Reading(points[0], policy).energyCounter,
                               Reading(points[|points| - 1], policy).energyCounter;
      first.Some? && last.Some? &&
      var drift := WindowOf(points, policy).total.energy - (last.value - first.value);
      var noisy := IntervalProperties.NoiseCount(SamplesOf(points, policy), |points| - 1, LimitsOf(policy));
      Abs(drift) <= noisy as real * DEFAULT_LIMITS.noiseFloor && (noisy == 0 ==> drift == 0.0)
  {
    hide WindowOf, Reading, PairSum, CountedGap, IntervalProperties.NoiseCount, IntervalProperties.BusinessSum;
    var samples, n := SamplesOf(points, policy), |points| - 1;
    IntervalProperties.CounterTelescopes(samples, n, LimitsOf(policy));
    WindowRefinesToPairs(points, policy, 0);
    PairSumIsBusinessSum(points, n, policy);
    assert samples[0] == Reading(points[0], policy) && samples[n] == Reading(points[n], policy);
  }

  // ----- Conservation

  predicate Balanced(t: Totals) {
    && 0.0 <= t.idle && 0.0 <= t.offHours && 0.0 <= t.over
    && t.idle + t.offHours + t.over == t.loss && t.loss <= t.energy
    && 0 <= t.idleSeconds && 0 <= t.offHoursSeconds && 0 <= t.overSeconds
  }

  /** The totals of the days from lo up to, not including, hi. */
  function SumDays(byDay: map<int, Totals>, lo: int, hi: int): Totals
    decreases hi - lo
  {
    if hi <= lo then ZERO else Add(SumDays(byDay, lo, hi - 1), DayTotals(byDay, hi - 1))
  }

  lemma {:induction false} AddSwaps(a: Totals, b: Totals, c: Totals)
    ensures Add(Add(a, b), c) == Add(Add(a, c), b)
  {
  }

  lemma {:induction false} SumDaysBooked(byDay: map<int, Totals>, lo: int, hi: int, day: int, c: Totals)
    ensures SumDays(byDay[day := Add(DayTotals(byDay, day), c)], lo, hi) ==
            if lo <= day < hi then Add(SumDays(byDay, lo, hi), c) else SumDays(byDay, lo, hi)
    decreases hi - lo
  {
    hide Add;
    if lo < hi {
      SumDaysBooked(byDay, lo, hi - 1, day, c);
      AddAssociates(SumDays(byDay, lo, hi - 1), DayTotals(byDay, hi - 1), c);
      AddSwaps(SumDays(byDay, lo, hi - 1), DayTotals(byDay, hi - 1), c);
    }
  }

  lemma {:induction false} ChargeBalanced(s: IntervalSample, policy: Policy)
    requires Counts(s)
    ensures Balanced(ChargeOf(s, policy))
    ensures policy.shifts == [] ==> AllOffHours(ChargeOf(s, policy))
  {
    hide InsideShift;
    NoShiftsNobodyInside(s.local);
  }

  lemma {:induction false} NoShiftsNobodyInside(local: LocalStamp)
    ensures !InsideShift(local, [])
  {
  }

  predicate AllOffHours(t: Totals) {
    t.offHours == t.energy
  }

  lemma {:induction false} AddBalanced(a: Totals, b: Totals)
    ensures Balanced(ZERO) && AllOffHours(ZERO)
    ensures Balanced(a) && Balanced(b) ==> Balanced(Add(a, b))
    ensures AllOffHours(a) && AllOffHours(b) ==> AllOffHours(Add(a, b))
  {
  }

  /**
   Every window is balanced, and so is each of its days: no interval's energy is counted as two losses,
   and without any shift all energy is off-hours energy.
   */
  lemma {:induction false} LossesBalance(samples: seq<IntervalSample>, policy: Policy)
    ensures var w := Account(samples, policy);
      && Balanced(w.total)
      && (forall d :: d in w.byDay ==> Balanced(w.byDay[d]))
      && (policy.shifts == [] ==> AllOffHours(w.total))
      && (policy.shifts == [] ==> forall d :: d in w.byDay ==> AllOffHours(w.byDay[d]))
  {
    hide ChargeOf, Counts, Add, Balanced, AllOffHours;
    AddBalanced(ZERO, ZERO);
    if samples != [] {
      var last, before := samples[|samples| - 1], Account(samples[..|samples| - 1], policy);
      LossesBalance(samples[..|samples| - 1], policy);
      if Counts(last) {
        ChargeBalanced(last, policy);
        AddBalanced(before.total, ChargeOf(last, policy));
        AddBalanced(DayTotals(before.byDay, last.local.ordinal), ChargeOf(last, policy));
      }
    }
  }

  /** Each field of the window, energies, losses and durations, is the sum of that field over the days. */
  lemma {:induction false} TotalIsSumOfDays(samples: seq<IntervalSample>, policy: Policy, lo: int, hi: int)
    requires forall s :: s in samples ==> lo <= s.local.ordinal < hi
    ensures Account(samples, policy).total == SumDays(Account(samples, policy).byDay, lo, hi)
    ensures forall d :: d in Account(samples, policy).byDay ==> lo <= d < hi
  {
    hide ChargeOf, Counts, Add;
    if samples == [] {
      SumDaysEmpty(lo, hi);
    } else {
      var init, last := samples[..|samples| - 1], samples[|samples| - 1];
      TotalIsSumOfDays(init, policy, lo, hi);
      SumDaysBooked(Account(init, policy).byDay, lo, hi, last.local.ordinal, ChargeOf(last, policy));
    }
  }

  lemma {:induction false} SumDaysEmpty(lo: int, hi: int)
    ensures SumDays(map[], lo, hi) == ZERO
    decreases hi - lo
  {
    if lo < hi {
      SumDaysEmpty(lo, hi - 1);
    }
  }

  // ----- Row order

  /** A point stands for its row, as often as the row occurs. */
  lemma {:induction false} PointCount(rows: seq<Row>, p: Point)
    ensures multiset(Points(rows))[p] == if RowTime(p.row) == Some(p.ts) then multiset(rows)[p.row] else 0
  {
    hide RowTime;
    if rows != [] {
      Sorting.SplitLast(rows);
      PointCount(rows[..|rows| - 1], p);
    }
  }

  lemma {:induction false} PointsPermute(rows: seq<Row>, shuffled: seq<Row>)
    requires multiset(rows) == multiset(shuffled)
    ensures multiset(Points(rows)) == multiset(Points(shuffled))
  {
    hide Points, RowTime;
    forall p: Point ensures multiset(Points(rows))[p] == multiset(Points(shuffled))[p] {
      PointCount(rows, p);
      PointCount(shuffled, p);
    }
  }

  lemma {:induction false} NotLaterIsTotal()
    ensures Sorting.TotalPreorder(NotLater)
  {
  }

  /** When no two different rows share a time, the order in which rows arrive does not matter at all. */
  lemma {:induction false} RowOrderIrrelevant(rows: seq<Row>, shuffled: seq<Row>, policy: Policy)
    requires multiset(rows) == multiset(shuffled)
    requires forall p, q :: p in Points(rows) && q in Points(rows) && p.ts == q.ts ==> p == q
    ensures SortedPoints(rows) == SortedPoints(shuffled)
    ensures WindowOf(SortedPoints(rows), policy) == WindowOf(SortedPoints(shuffled), policy)
  {
    hide WindowOf, Points, Sorting.SortBy;
    NotLaterIsTotal();
    PointsPermute(rows, shuffled);
    Sorting.SortSpec(NotLater, Points(rows));
    Sorting.SortSpec(NotLater, Points(shuffled));
    var xs, ys := SortedPoints(rows), SortedPoints(shuffled);
    forall p, q | p in multiset(xs) && q in multiset(xs) && NotLater(p, q) && NotLater(q, p) ensures p == q {
      assert p in multiset(Points(rows)) && q in multiset(Points(rows));
    }
    Sorting.SortedUnique(NotLater, xs, ys);
  }
}
