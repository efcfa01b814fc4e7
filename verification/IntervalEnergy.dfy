/**
 The energy of the interval between two adjacent samples: meter counter against integrated
 power against current, voltage and power factor.

 Decide states the decision as a verdict on the counter followed by an outcome;
 ComputeIntervalEnergyDelta takes the decision step by step, growing its flag set.
 */
module IntervalEnergy {
  import opened Common
  import opened TelemetryNormalization

  const DEFAULT_MAX_COUNTER_GAP := 120.0

  datatype Limits = Limits(
    maxFallbackGap: real,
    fallbackPf: real,
    maxCounterGap: Option<real>,
    relativeTolerance: real,
    absoluteTolerance: real,
    hardMaxKw: real,
    noiseFloor: real,
    resetNearZero: real,
    allowAssumedPf: bool)

  const DEFAULT_LIMITS := Limits(120.0, 0.85, None, 0.35, 0.05, 10000.0, 0.001, 0.25, false)

  datatype Method = NoMethod | Counter | PowerIntegration | DerivedViPf | DerivedViAssumedPf

  datatype QualityClass = Invalid | BillingGrade | CounterOnly | Estimated | GapExceeded | Unbillable

  datatype Reason =
    | FirstSampleReason | NonPositiveElapsed | CounterAccepted
    | FallbackMeasuredPower | FallbackViPf | FallbackAssumedPf | FallbackGapExceeded
    | CounterReset | CounterNegative | CounterAboveHardMax | CounterOffPower | CounterGap | InsufficientInputs

  datatype Interval = Interval(
    business: real,
    exported: real,
    counterDelta: Option<real>,
    energyMethod: Method,
    flags: set<Flag>,
    quality: QualityClass,
    reason: Reason,
    elapsed: real,
    fallback: Option<real>,
    impliedAvgKw: Option<real>,
    comparisonKw: Option<real>,
    coverage: real)
  {
    predicate Credited() {
      quality == BillingGrade || quality == CounterOnly || quality == Estimated
    }
  }

  // ----- Integrated power

  /** Trapezoid of the two clamped powers, in kWh. */
  function Integrate(previousW: real, currentW: real, hours: real): real {
    Max((Max(previousW, 0.0) + Max(currentW, 0.0)) / 2.0, 0.0) * hours / 1000.0
  }

  function MeanKw(previousW: real, currentW: real): real {
    Max((previousW + currentW) / 2.0 / 1000.0, 0.0)
  }

  function MeasuredPower(s: Sample): Option<real> {
    if s.rawActivePower == None && s.rawPower == None then None else Some(Max(s.businessPower, 0.0))
  }

  predicate HasVi(s: Sample) {
    s.current.Some? && s.voltage.Some?
  }

  function ViWatts(s: Sample, pf: real): real
    requires HasVi(s)
  {
    s.current.value * s.voltage.value * pf
  }

  /** What the interval would be credited without the counter, and on what evidence. */
  datatype Fallback = NoFallback | Fallback(
    energy: real, exported: real, how: Method, why: Reason, raised: set<Flag>, comparison: real)

  /** The two endpoint powers, in W, that the fallback integrates. */
  function EndpointPowers(prev: Sample, cur: Sample, limits: Limits): Option<(real, real)> {
    if MeasuredPower(prev).Some? && MeasuredPower(cur).Some? then
      Some((MeasuredPower(prev).value, MeasuredPower(cur).value))
    else if !HasVi(prev) || !HasVi(cur) then None
    else if prev.pfBusiness.Some? && cur.pfBusiness.Some? then
      Some((ViWatts(prev, prev.pfBusiness.value), ViWatts(cur, cur.pfBusiness.value)))
    else if limits.allowAssumedPf then
      Some((ViWatts(prev, limits.fallbackPf), ViWatts(cur, limits.fallbackPf)))
    else None
  }

  function FallbackOf(prev: Sample, cur: Sample, limits: Limits, hours: real): Fallback {
    match EndpointPowers(prev, cur, limits)
    case None => NoFallback
    case Some((p, c)) =>
      if MeasuredPower(prev).Some? && MeasuredPower(cur).Some? then
        Fallback(Integrate(p, c, hours), Integrate(prev.exportPower, cur.exportPower, hours),
                 PowerIntegration, FallbackMeasuredPower, {FallbackIntegration}, MeanKw(p, c))
      else if prev.pfBusiness.Some? && cur.pfBusiness.Some? then
        Fallback(Integrate(p, c, hours), 0.0, DerivedViPf, FallbackViPf, {PowerDerivedFromViPf}, MeanKw(p, c))
      else
        Fallback(Integrate(p, c, hours), 0.0, DerivedViAssumedPf, FallbackAssumedPf,
                 {PowerDerivedFromViPf, PfUntrusted}, MeanKw(p, c))
  }

  function FallbackEnergy(f: Fallback): Option<real> {
    if f.Fallback? then Some(f.energy) else None
  }

  function ComparisonKw(f: Fallback): Option<real> {
    if f.Fallback? then Some(f.comparison) else None
  }

  // ----- The verdict on the counter

  datatype Verdict =
    | Missing | WithinNoise | ResetSeen | ReverseSeen
    | OverGap | OverHardMax | OffFallback | Trusted

  function CounterGapLimit(limits: Limits): real {
    match limits.maxCounterGap
    case Some(gap) => gap
    case None => Max(limits.maxFallbackGap, DEFAULT_MAX_COUNTER_GAP)
  }

  function Tolerance(limits: Limits, fallback: real): real {
    Max(limits.absoluteTolerance, Abs(fallback) * limits.relativeTolerance)
  }

  function Elapsed(prev: Sample, cur: Sample): real {
    cur.timestamp - prev.timestamp
  }

  function Hours(seconds: real): real {
    seconds / 3600.0
  }

  function CounterStep(prev: Sample, cur: Sample): Option<real> {
    if cur.energyCounter.Some? && prev.energyCounter.Some?
    then Some(cur.energyCounter.value - prev.energyCounter.value)
    else None
  }

  function Judge(prev: Sample, cur: Sample, limits: Limits, fallback: Fallback): Verdict
    requires Elapsed(prev, cur) > 0.0
  {
    var dt := Elapsed(prev, cur);
    match CounterStep(prev, cur)
    case None => Missing
    case Some(step) =>
      if Abs(step) <= limits.noiseFloor then WithinNoise
      else if step < 0.0 then
        if prev.energyCounter.value > limits.resetNearZero && cur.energyCounter.value <= limits.resetNearZero
        then ResetSeen else ReverseSeen
      else if dt > CounterGapLimit(limits) then OverGap
      else if step / Hours(dt) > limits.hardMaxKw then OverHardMax
      else if fallback.Fallback? && Abs(step - fallback.energy) > Tolerance(limits, fallback.energy) then OffFallback
      else Trusted
  }

  /** The flag each verdict leaves behind. */
  function VerdictFlags(v: Verdict): set<Flag> {
    match v
    case Missing => {CounterMissing}
    case WithinNoise => {CounterNoiseFloorApplied}
    case ResetSeen => {CounterResetDetected}
    case ReverseSeen => {CounterReverseSeen}
    case OverGap => {CounterGapExceeded}
    case OverHardMax => {CounterImplausibleHardMax}
    case OffFallback => {CounterImplausibleVsPower}
    case Trusted => {}
  }

  /** The counter step that survives into the result: a step backwards is discarded. */
  function KeptStep(v: Verdict, step: Option<real>): Option<real> {
    if v == ResetSeen || v == ReverseSeen then None else step
  }

  function ImpliedKw(step: Option<real>, hours: real): Option<real>
    requires hours != 0.0
  {
    match step
    case None => None
    case Some(s) => Some(s / hours)
  }

  /** Why nothing was credited, read off the flags in the order of the cascade. */
  function RefusalReason(flags: set<Flag>, otherwise: Reason, counterGapCounts: bool): Reason {
    if CounterResetDetected in flags then CounterReset
    else if CounterReverseSeen in flags then CounterNegative
    else if CounterImplausibleHardMax in flags then CounterAboveHardMax
    else if CounterImplausibleVsPower in flags then CounterOffPower
    else if counterGapCounts && CounterGapExceeded in flags then CounterGap
    else otherwise
  }

  // ----- The decision

  function NothingElapsed(flags: set<Flag>, flag: Flag, reason: Reason, elapsed: real): Interval {
    Interval(0.0, 0.0, None, NoMethod, flags + {flag}, Invalid, reason, elapsed, None, None, None, 0.0)
  }

  function Decide(previous: Option<Sample>, cur: Sample, limits: Limits): Interval {
    match previous
    case None => NothingElapsed(cur.flags, FirstSample, FirstSampleReason, 0.0)
    case Some(prev) =>
      if Elapsed(prev, cur) <= 0.0 then
        NothingElapsed(cur.flags, DuplicateOrOutOfOrder, NonPositiveElapsed, Elapsed(prev, cur))
      else DecideForward(prev, cur, limits)
  }

  function DecideForward(prev: Sample, cur: Sample, limits: Limits): Interval
    requires Elapsed(prev, cur) > 0.0
  {
    var dt := Elapsed(prev, cur);
    var fallback := FallbackOf(prev, cur, limits, Hours(dt));
    Conclude(dt, CounterStep(prev, cur), Judge(prev, cur, limits, fallback), fallback, limits, cur.flags)
  }

  /** The outcome, once the elapsed time, the counter step, its verdict and the fallback are known. */
  function Conclude(dt: real, step: Option<real>, verdict: Verdict, fallback: Fallback, limits: Limits,
                    sampleFlags: set<Flag>): Interval
    requires dt > 0.0 && (verdict == Trusted ==> step.Some?)
  {
    var flags := sampleFlags + VerdictFlags(verdict);
    match verdict
    case WithinNoise =>
      if fallback.Fallback? && fallback.energy > 0.0
      then CreditFallback(fallback, flags, dt, Some(0.0), Some(0.0))
      else Interval(0.0, 0.0, Some(0.0), Counter, flags, BillingGrade, CounterAccepted, dt,
                    FallbackEnergy(fallback), Some(0.0), ComparisonKw(fallback), dt)
    case Trusted =>
      Interval(step.value, 0.0, step, Counter, flags,
               if fallback.Fallback? then BillingGrade else CounterOnly, CounterAccepted, dt,
               FallbackEnergy(fallback), Some(step.value / Hours(dt)), ComparisonKw(fallback), dt)
    case _ =>
      var kept := KeptStep(verdict, step);
      var implied := ImpliedKw(kept, Hours(dt));
      if dt > limits.maxFallbackGap then
        Interval(0.0, 0.0, kept, NoMethod, flags + {LongGapFallbackBlocked}, GapExceeded,
                 RefusalReason(flags, FallbackGapExceeded, false), dt,
                 FallbackEnergy(fallback), implied, ComparisonKw(fallback), 0.0)
      else if fallback.Fallback? then CreditFallback(fallback, flags, dt, kept, implied)
      else
        Interval(0.0, 0.0, kept, NoMethod, flags + {InsufficientPowerForFallback}, Unbillable,
                 RefusalReason(flags, InsufficientInputs, true), dt, None, implied, None, 0.0)
  }

  function CreditFallback(f: Fallback, flags: set<Flag>, dt: real, step: Option<real>, implied: Option<real>): Interval
    requires f.Fallback?
  {
    Interval(f.energy, f.exported, step, f.how, flags + f.raised, Estimated, f.why, dt,
             Some(f.energy), implied, Some(f.comparison), dt)
  }

  // ----- The decision as the program takes it

  method ChooseFallback(prev: Sample, cur: Sample, limits: Limits, hours: real) returns (f: Fallback)
    ensures f == FallbackOf(prev, cur, limits, hours)
  {
    var measuredPrev, measuredCur := MeasuredPower(prev), MeasuredPower(cur);
    var measured := NoFallback;
    if measuredPrev.Some? && measuredCur.Some? {
      measured := Fallback(Integrate(measuredPrev.value, measuredCur.value, hours),
                           Integrate(prev.exportPower, cur.exportPower, hours),
                           PowerIntegration, FallbackMeasuredPower, {FallbackIntegration},
                           MeanKw(measuredPrev.value, measuredCur.value));
    }
    var vi := NoFallback;
    if HasVi(cur) && HasVi(prev) {
      if cur.pfBusiness.Some? && prev.pfBusiness.Some? {
        var p, c := ViWatts(prev, prev.pfBusiness.value), ViWatts(cur, cur.pfBusiness.value);
        vi := Fallback(Integrate(p, c, hours), 0.0, DerivedViPf, FallbackViPf, {PowerDerivedFromViPf}, MeanKw(p, c));
      } else if limits.allowAssumedPf {
        var p, c := ViWatts(prev, limits.fallbackPf), ViWatts(cur, limits.fallbackPf);
        vi := Fallback(Integrate(p, c, hours), 0.0, DerivedViAssumedPf, FallbackAssumedPf,
                       {PowerDerivedFromViPf, PfUntrusted}, MeanKw(p, c));
      }
    }
    f := measured;
    if f.NoFallback? && vi.Fallback? {
      f := vi;
    }
  }

  method ComputeIntervalEnergyDelta(previous: Option<Sample>, cur: Sample, limits: Limits) returns (r: Interval)
    ensures r == Decide(previous, cur, limits)
  {
    hide FallbackOf, Tolerance, RefusalReason, Abs;
    var flags := cur.flags;
    if previous.None? {
      return Interval(0.0, 0.0, None, NoMethod, flags + {FirstSample}, Invalid, FirstSampleReason,
                      0.0, None, None, None, 0.0);
    }
    var prev := previous.value;
    var dt := cur.timestamp - prev.timestamp;
    var counterGapLimit :=
      if limits.maxCounterGap.Some? then limits.maxCounterGap.value
      else Max(limits.maxFallbackGap, DEFAULT_MAX_COUNTER_GAP);
    if dt <= 0.0 {
      return Interval(0.0, 0.0, None, NoMethod, flags + {DuplicateOrOutOfOrder}, Invalid, NonPositiveElapsed,
                      dt, None, None, None, 0.0);
    }
    var hours := dt / 3600.0;
    var fallback := ChooseFallback(prev, cur, limits, hours);
    var fallbackEnergy, comparison := FallbackEnergy(fallback), ComparisonKw(fallback);

    var step: Option<real> := None;
    if cur.energyCounter.Some? && prev.energyCounter.Some? {
      var s := cur.energyCounter.value - prev.energyCounter.value;
      step := Some(s);
      if Abs(s) <= limits.noiseFloor {
        flags := flags + {CounterNoiseFloorApplied};
        if fallback.Fallback? && fallback.energy > 0.0 {
          return Interval(fallback.energy, fallback.exported, Some(0.0), fallback.how, flags + fallback.raised,
                          Estimated, fallback.why, dt, fallbackEnergy, Some(0.0), comparison, dt);
        }
        return Interval(0.0, 0.0, Some(0.0), Counter, flags, BillingGrade, CounterAccepted,
                        dt, fallbackEnergy, Some(0.0), comparison, dt);
      }
      if s < 0.0 {
        if prev.energyCounter.value > limits.resetNearZero && cur.energyCounter.value <= limits.resetNearZero {
          flags := flags + {CounterResetDetected};
        } else {
          flags := flags + {CounterReverseSeen};
        }
        step := None;
      } else if dt > counterGapLimit {
        flags := flags + {CounterGapExceeded};
      } else {
        var implied := s / hours;
        if implied > limits.hardMaxKw {
          flags := flags + {CounterImplausibleHardMax};
        } else if fallback.Fallback? && Abs(s - fallback.energy) > Tolerance(limits, fallback.energy) {
          flags := flags + {CounterImplausibleVsPower};
        } else {
          var quality := if fallback.Fallback? then BillingGrade else CounterOnly;
          r := Interval(s, 0.0, step, Counter, flags, quality, CounterAccepted,
                        dt, fallbackEnergy, Some(implied), comparison, dt);
          assert flags + {} == flags;
          return;
        }
      }
    } else {
      flags := flags + {CounterMissing};
    }
    ghost var verdict := Judge(prev, cur, limits, fallback);
    assert verdict != WithinNoise && verdict != Trusted;
    assert flags == cur.flags + VerdictFlags(verdict) && step == KeptStep(verdict, CounterStep(prev, cur));

    var implied := ImpliedKw(step, hours);
    if dt > limits.maxFallbackGap {
      var reason := RefusalReason(flags, FallbackGapExceeded, false);
      return Interval(0.0, 0.0, step, NoMethod, flags + {LongGapFallbackBlocked}, GapExceeded, reason,
                      dt, fallbackEnergy, implied, comparison, 0.0);
    }
    if fallback.Fallback? {
      return Interval(fallback.energy, fallback.exported, step, fallback.how, flags + fallback.raised, Estimated,
                      fallback.why, dt, fallbackEnergy, implied, comparison, dt);
    }
    var reason := RefusalReason(flags, InsufficientInputs, true);
    return Interval(0.0, 0.0, step, NoMethod, flags + {InsufficientPowerForFallback}, Unbillable, reason,
                    dt, fallbackEnergy, implied, comparison, 0.0);
  }
}
