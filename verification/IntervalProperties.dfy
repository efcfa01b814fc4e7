/** What the interval decision guarantees on every path, and over whole sample sequences. */
module IntervalProperties {
  import opened Common
  import opened TelemetryNormalization
  import opened IntervalEnergy

  // ----- Arithmetic of integrated power

  lemma {:induction false} ScaleMonotone(a: real, b: real, h: real)
    requires a <= b && 0.0 <= h
    ensures a * h <= b * h
  {
  }

  /** A trapezoid lies between its smaller and its larger clamped endpoint held for the whole time. */
  lemma {:induction false} IntegrateBetween(p: real, c: real, hours: real)
    requires hours > 0.0
    ensures Min(Max(p, 0.0), Max(c, 0.0)) * hours / 1000.0 <= Integrate(p, c, hours)
    ensures Integrate(p, c, hours) <= Max(Max(p, 0.0), Max(c, 0.0)) * hours / 1000.0
    ensures Integrate(p, c, hours) >= 0.0
  {
    var mean := Max((Max(p, 0.0) + Max(c, 0.0)) / 2.0, 0.0);
    ScaleMonotone(Min(Max(p, 0.0), Max(c, 0.0)), mean, hours);
    ScaleMonotone(mean, Max(Max(p, 0.0), Max(c, 0.0)), hours);
    ScaleMonotone(0.0, mean, hours);
  }

  lemma {:induction false} FallbackNonNegative(prev: Sample, cur: Sample, limits: Limits, hours: real)
    requires hours > 0.0
    ensures var f := FallbackOf(prev, cur, limits, hours); f.Fallback? ==> f.energy >= 0.0 && f.exported >= 0.0
  {
    if EndpointPowers(prev, cur, limits).Some? {
      var (p, c) := EndpointPowers(prev, cur, limits).value;
      IntegrateBetween(p, c, hours);
      IntegrateBetween(prev.exportPower, cur.exportPower, hours);
    }
  }

  lemma {:induction false} ScaleStrict(a: real, b: real, h: real)
    requires a < b && 0.0 < h
    ensures a * h < b * h
  {
  }

  lemma {:induction false} ProductExceeds(q: real, hours: real, bound: real)
    requires hours > 0.0
    ensures q > bound <==> q * hours > bound * hours
  {
    if q > bound {
      ScaleStrict(bound, q, hours);
    } else {
      ScaleMonotone(q, bound, hours);
    }
  }

  lemma {:induction false} QuotientExceeds(step: real, hours: real, bound: real)
    requires hours > 0.0
    ensures step / hours > bound <==> step > bound * hours
  {
    var q := step / hours;
    assert q * hours == step;
    ProductExceeds(q, hours, bound);
  }

  // ----- One interval

  /** Energy is never negative, and energy and coverage are credited together or not at all. */
  lemma {:induction false} CreditIsAllOrNothing(previous: Option<Sample>, cur: Sample, limits: Limits)
    ensures var r := Decide(previous, cur, limits);
      && r.business >= 0.0 && r.exported >= 0.0
      && (r.Credited() ==> r.elapsed > 0.0 && r.coverage == r.elapsed && r.energyMethod != NoMethod)
      && (!r.Credited() ==> r.coverage == 0.0 && r.business == 0.0 && r.exported == 0.0 && r.energyMethod == NoMethod)
  {
    hide FallbackOf, Tolerance, CounterGapLimit, RefusalReason, VerdictFlags;
    if previous.Some? && Elapsed(previous.value, cur) > 0.0 {
      FallbackIsNotCounter(previous.value, cur, limits);
      FallbackNonNegative(previous.value, cur, limits, Hours(Elapsed(previous.value, cur)));
    }
  }

  /** Both meter readings are there and they differ by no more than the noise floor. */
  predicate NoiseStep(prev: Sample, cur: Sample, limits: Limits) {
    CounterStep(prev, cur).Some? && Abs(CounterStep(prev, cur).value) <= limits.noiseFloor
  }

  /** The energy, in kWh, that the trapezoid rule gives for the clamped endpoint powers. */
  function TrapezoidKwh(p: real, c: real, hours: real): real {
    (Max(p, 0.0) + Max(c, 0.0)) * hours / 2000.0
  }

  function Trapezoid(prev: Sample, cur: Sample, limits: Limits): Option<real> {
    match EndpointPowers(prev, cur, limits)
    case None => None
    case Some((p, c)) => Some(TrapezoidKwh(p, c, Hours(Elapsed(prev, cur))))
  }

  lemma {:induction false} IntegrateIsTrapezoid(p: real, c: real, hours: real)
    ensures Integrate(p, c, hours) == TrapezoidKwh(p, c, hours)
  {
    var sum := Max(p, 0.0) + Max(c, 0.0);
    assert Integrate(p, c, hours) == (sum / 2.0) * hours / 1000.0;
    assert (sum / 2.0) * hours == (sum * hours) / 2.0;
  }

  lemma {:induction false} FallbackIsTrapezoid(prev: Sample, cur: Sample, limits: Limits)
    ensures FallbackEnergy(FallbackOf(prev, cur, limits, Hours(Elapsed(prev, cur)))) == Trapezoid(prev, cur, limits)
  {
    hide Integrate, TrapezoidKwh;
    if EndpointPowers(prev, cur, limits).Some? {
      var (p, c) := EndpointPowers(prev, cur, limits).value;
      IntegrateIsTrapezoid(p, c, Hours(Elapsed(prev, cur)));
    }
  }

  /**
   A step the meter can be billed for: forwards, beyond noise, in time, physically possible, and in line with
   power.
   */
  predicate MeterPlausible(prev: Sample, cur: Sample, limits: Limits) {
    && CounterStep(prev, cur).Some?
    && var step, fallback := CounterStep(prev, cur).value, Trapezoid(prev, cur, limits);
       && step >= 0.0 && !NoiseStep(prev, cur, limits)
       && Elapsed(prev, cur) <= CounterGapLimit(limits)
       && step <= limits.hardMaxKw * Hours(Elapsed(prev, cur))
       && (fallback.Some? ==> Abs(step - fallback.value) <= Tolerance(limits, fallback.value))
  }

  lemma {:induction false} TrustedIsPlausible(prev: Sample, cur: Sample, limits: Limits)
    requires Elapsed(prev, cur) > 0.0
    ensures Judge(prev, cur, limits, FallbackOf(prev, cur, limits, Hours(Elapsed(prev, cur)))) == Trusted
            <==> MeterPlausible(prev, cur, limits)
  {
    hide FallbackOf, Trapezoid;
    FallbackIsTrapezoid(prev, cur, limits);
    if CounterStep(prev, cur).Some? {
      QuotientExceeds(CounterStep(prev, cur).value, Hours(Elapsed(prev, cur)), limits.hardMaxKw);
    }
  }

  /**
   The counter settles an interval exactly when its step is plausible, and then the energy is that step; or
   when the step is within the noise floor and no positive fallback contradicts it, and then it is zero.
   */
  lemma {:induction false} CounterCreditExactly(prev: Sample, cur: Sample, limits: Limits)
    requires Elapsed(prev, cur) > 0.0
    ensures var r := Decide(Some(prev), cur, limits);
      && (r.energyMethod == Counter <==>
            if NoiseStep(prev, cur, limits)
            then !(Trapezoid(prev, cur, limits).Some? && Trapezoid(prev, cur, limits).value > 0.0)
            else MeterPlausible(prev, cur, limits))
      && (r.energyMethod == Counter ==>
            CounterStep(prev, cur).Some?
            && r.business == if NoiseStep(prev, cur, limits) then 0.0 else CounterStep(prev, cur).value)
  {
    hide FallbackOf, MeterPlausible;
    TrustedIsPlausible(prev, cur, limits);
    FallbackIsTrapezoid(prev, cur, limits);
    FallbackIsNotCounter(prev, cur, limits);
  }

  lemma {:induction false} FallbackIsNotCounter(prev: Sample, cur: Sample, limits: Limits)
    ensures var f := FallbackOf(prev, cur, limits, Hours(Elapsed(prev, cur)));
      f.Fallback? ==> f.how in {PowerIntegration, DerivedViPf, DerivedViAssumedPf}
  {
  }

  /**
   An interval is estimated exactly when both endpoint powers are known and the counter neither settles it
   nor stands within noise against zero power, within the fallback gap unless it stands within noise; the
   energy is then the trapezoid, which lies between the smaller and the larger clamped endpoint power held
   for the whole interval.
   */
  lemma {:induction false} EstimateExactly(prev: Sample, cur: Sample, limits: Limits)
    requires Elapsed(prev, cur) > 0.0
    ensures var r := Decide(Some(prev), cur, limits);
      && (r.quality == Estimated <==>
            Trapezoid(prev, cur, limits).Some?
            && if NoiseStep(prev, cur, limits) then Trapezoid(prev, cur, limits).value > 0.0
               else !MeterPlausible(prev, cur, limits) && Elapsed(prev, cur) <= limits.maxFallbackGap)
      && (r.quality == Estimated ==> Some(r.business) == Trapezoid(prev, cur, limits))
  {
    hide FallbackOf, MeterPlausible, Trapezoid;
    TrustedIsPlausible(prev, cur, limits);
    FallbackIsTrapezoid(prev, cur, limits);
  }

  lemma {:induction false} TrapezoidBetween(prev: Sample, cur: Sample, limits: Limits)
    requires Elapsed(prev, cur) > 0.0 && EndpointPowers(prev, cur, limits).Some?
    ensures var (p, c) := EndpointPowers(prev, cur, limits).value;
      var hours := Hours(Elapsed(prev, cur));
      && Min(Max(p, 0.0), Max(c, 0.0)) * hours / 1000.0 <= Trapezoid(prev, cur, limits).value
      && Trapezoid(prev, cur, limits).value <= Max(Max(p, 0.0), Max(c, 0.0)) * hours / 1000.0
  {
    var (p, c) := EndpointPowers(prev, cur, limits).value;
    IntegrateBetween(p, c, Hours(Elapsed(prev, cur)));
    IntegrateIsTrapezoid(p, c, Hours(Elapsed(prev, cur)));
  }

  /** Exactly which evidence each quality class and each method stands for. */
  lemma {:induction false} ClassNamesEvidence(prev: Sample, cur: Sample, limits: Limits)
    requires Elapsed(prev, cur) > 0.0
    ensures var r := Decide(Some(prev), cur, limits);
      var measured := MeasuredPower(prev).Some? && MeasuredPower(cur).Some?;
      && (r.quality == CounterOnly
          <==> r.energyMethod == Counter && r.fallback == None && !NoiseStep(prev, cur, limits))
      && (r.quality == BillingGrade
          <==> r.energyMethod == Counter && (r.fallback.Some? || NoiseStep(prev, cur, limits)))
      && (r.quality == Estimated <==> r.energyMethod in {PowerIntegration, DerivedViPf, DerivedViAssumedPf})
      && (r.quality == Estimated ==> (r.energyMethod == PowerIntegration <==> measured))
      && (r.energyMethod == DerivedViPf ==> prev.pfBusiness.Some? && cur.pfBusiness.Some?)
      && (r.energyMethod == DerivedViAssumedPf ==> limits.allowAssumedPf && PfUntrusted in r.flags)
  {
  }

  /** The gap limit that the program sets for the method. */
  function GapLimitOf(how: Method, limits: Limits): real {
    if how == Counter then CounterGapLimit(limits) else limits.maxFallbackGap
  }

  /**
   An interval is credited beyond the gap limit of the method that credits it exactly when the meter stood still
   within the noise floor and the interval is longer than the limit of what then credits it: the trapezoid if it
   is positive, else the counter. That branch never looks at the gap; past both limits it credits every interval.
   */
  lemma {:induction false} LongGapCredit(prev: Sample, cur: Sample, limits: Limits)
    requires Elapsed(prev, cur) > 0.0
    ensures var r := Decide(Some(prev), cur, limits);
      var powered := Trapezoid(prev, cur, limits).Some? && Trapezoid(prev, cur, limits).value > 0.0;
      && (r.Credited() && r.elapsed > GapLimitOf(r.energyMethod, limits)
          <==> NoiseStep(prev, cur, limits)
               && Elapsed(prev, cur) > if powered then limits.maxFallbackGap else CounterGapLimit(limits))
      && (Elapsed(prev, cur) > limits.maxFallbackGap && Elapsed(prev, cur) > CounterGapLimit(limits) ==>
            (r.Credited() <==> NoiseStep(prev, cur, limits)))
  {
    hide FallbackOf, Trapezoid;
    FallbackIsTrapezoid(prev, cur, limits);
    FallbackIsNotCounter(prev, cur, limits);
  }

  /** Outside the noise floor every credited interval respects the gap limit of the method that credited it. */
  lemma {:induction false} CreditedGapRespected(prev: Sample, cur: Sample, limits: Limits)
    requires Decide(Some(prev), cur, limits).Credited()
    requires !NoiseStep(prev, cur, limits)
    ensures var r := Decide(Some(prev), cur, limits);
      r.elapsed <= GapLimitOf(r.energyMethod, limits)
  {
  }

  /** A metered sample, as normalised from a payload with active power and a counter. */
  function MeterSample(at: real, watts: real, counter: real): Sample {
    Normalized(Payload(Some(at), map[ActivePower := watts, EnergyKwh := counter], at), DEFAULT_CONFIG)
  }

  lemma {:induction false} MeterSampleReads(at: real, watts: real, counter: real)
    requires watts >= 0.0
    ensures var s := MeterSample(at, watts, counter);
      && s.timestamp == at && s.rawActivePower == Some(watts) && s.businessPower == watts
      && s.exportPower == 0.0 && s.energyCounter == Some(counter)
  {
    var readings := map[ActivePower := watts, EnergyKwh := counter];
    FirstPresentIsFirst(POWER_FIELDS, readings, 2);
    FirstPresentIsFirst(ENERGY_FIELDS, readings, 0);
  }

  /** The branch that ignores the gap is reachable: a stuck meter bills full power over a silence of any length. */
  lemma {:induction false} StuckMeterBillsTheGap(start: real, gap: real, watts: real, counter: real, limits: Limits)
    requires gap > 0.0 && watts > 0.0 && limits.noiseFloor >= 0.0
    ensures var r := Decide(Some(MeterSample(start, watts, counter)), MeterSample(start + gap, watts, counter), limits);
      r.quality == Estimated && r.coverage == gap && r.business == watts * Hours(gap) / 1000.0
  {
    MeterSampleReads(start, watts, counter);
    MeterSampleReads(start + gap, watts, counter);
    var prev, cur := MeterSample(start, watts, counter), MeterSample(start + gap, watts, counter);
    SteadyPower(prev, cur, gap, watts, limits);
  }

  lemma {:induction false} SteadyPower(prev: Sample, cur: Sample, gap: real, watts: real, limits: Limits)
    requires gap > 0.0 && watts > 0.0 && limits.noiseFloor >= 0.0
    requires Elapsed(prev, cur) == gap
    requires prev.rawActivePower == Some(watts) == cur.rawActivePower
    requires prev.businessPower == watts == cur.businessPower
    requires prev.energyCounter.Some? && cur.energyCounter == prev.energyCounter
    ensures var r := Decide(Some(prev), cur, limits);
      r.quality == Estimated && r.coverage == gap && r.business == watts * Hours(gap) / 1000.0
  {
    ScalePositive(watts, Hours(gap));
  }

  lemma {:induction false} ScalePositive(a: real, b: real)
    requires a > 0.0 && b > 0.0
    ensures a * b > 0.0
  {
  }

  /** On normalised samples the refusal reason is a function of the verdict alone. */
  lemma {:induction false} ReasonFollowsVerdict(prev: Sample, cur: Sample, limits: Limits)
    requires Elapsed(prev, cur) > 0.0 && cur.flags <= NORMALISATION_FLAGS
    requires !Decide(Some(prev), cur, limits).Credited()
    ensures var r := Decide(Some(prev), cur, limits);
      var v := Judge(prev, cur, limits, FallbackOf(prev, cur, limits, Hours(Elapsed(prev, cur))));
      && (r.reason == CounterReset <==> v == ResetSeen)
      && (r.reason == CounterNegative <==> v == ReverseSeen)
      && (r.reason == CounterAboveHardMax <==> v == OverHardMax)
      && (r.reason == CounterOffPower <==> v == OffFallback)
      && (r.quality == GapExceeded <==> r.elapsed > limits.maxFallbackGap)
      && (v == ResetSeen || v == ReverseSeen <==> CounterStep(prev, cur).Some? && r.counterDelta == None)
      && (v == ResetSeen <==>
            CounterStep(prev, cur).Some? && CounterStep(prev, cur).value < 0.0 && !NoiseStep(prev, cur, limits)
            && cur.energyCounter.value <= limits.resetNearZero < prev.energyCounter.value)
  {
  }

  // ----- Polarity

  function WithoutFlags(r: Interval): Interval {
    r.(flags := {})
  }

  lemma {:induction false} SameFallback(p1: Sample, c1: Sample, p2: Sample, c2: Sample, limits: Limits, hours: real)
    requires SameForEnergy(p1, p2) && SameForEnergy(c1, c2)
    ensures FallbackOf(p1, c1, limits, hours) == FallbackOf(p2, c2, limits, hours)
  {
    assert MeasuredPower(p1) == MeasuredPower(p2) && MeasuredPower(c1) == MeasuredPower(c2);
    SameVi(p1, p2, limits.fallbackPf);
    SameVi(c1, c2, limits.fallbackPf);
  }

  lemma {:induction false} SameVi(s: Sample, t: Sample, pf: real)
    requires SameForEnergy(s, t)
    ensures HasVi(s) <==> HasVi(t)
    ensures HasVi(s) ==> ViWatts(s, pf) == ViWatts(t, pf)
    ensures HasVi(s) && s.pfBusiness.Some? ==> ViWatts(s, s.pfBusiness.value) == ViWatts(t, t.pfBusiness.value)
  {
  }

  lemma {:induction false} SampleFlagsDoNotDecide(dt: real, step: Option<real>, verdict: Verdict, fallback: Fallback,
                                                  limits: Limits,
                               flags1: set<Flag>, flags2: set<Flag>)
    requires dt > 0.0 && (verdict == Trusted ==> step.Some?)
    requires flags1 <= NORMALISATION_FLAGS && flags2 <= NORMALISATION_FLAGS
    ensures WithoutFlags(Conclude(dt, step, verdict, fallback, limits, flags1))
         == WithoutFlags(Conclude(dt, step, verdict, fallback, limits, flags2))
  {
  }

  lemma {:induction false} SameSamplesSameInterval(p1: Sample, c1: Sample, p2: Sample, c2: Sample, limits: Limits)
    requires SameForEnergy(p1, p2) && SameForEnergy(c1, c2)
    requires c1.flags <= NORMALISATION_FLAGS && c2.flags <= NORMALISATION_FLAGS
    ensures WithoutFlags(Decide(Some(p1), c1, limits)) == WithoutFlags(Decide(Some(p2), c2, limits))
  {
    var dt := Elapsed(p1, c1);
    if dt > 0.0 {
      SameFallback(p1, c1, p2, c2, limits, Hours(dt));
      var fallback := FallbackOf(p1, c1, limits, Hours(dt));
      var verdict := Judge(p1, c1, limits, fallback);
      assert Judge(p2, c2, limits, fallback) == verdict;
      SampleFlagsDoNotDecide(dt, CounterStep(p1, c1), verdict, fallback, limits, c1.flags, c2.flags);
    }
  }

  /**
   Reversing the current transformers and configuring the device as inverted changes nothing that is
   billed: same energies, method, class, reason and coverage, whatever happens to the signs of
   current and voltage.
   */
  lemma {:induction false} PolaritySymmetry(p: Payload, p': Payload, c: Payload, c': Payload, config: PowerConfig,
                                            limits: Limits)
    requires Mirrored(p, p') && Mirrored(c, c')
    requires config.polarity == NormalPolarity
    ensures var inverted := config.(polarity := InvertedPolarity);
      WithoutFlags(Decide(Some(Normalized(p, config)), Normalized(c, config), limits))
      == WithoutFlags(Decide(Some(Normalized(p', inverted)), Normalized(c', inverted), limits))
  {
    var inverted := config.(polarity := InvertedPolarity);
    MirroredSamplesAgree(p, p', config, inverted);
    MirroredSamplesAgree(c, c', config, inverted);
    FlagsOfNormalisation(c, config);
    FlagsOfNormalisation(c', inverted);
    SameSamplesSameInterval(Normalized(p, config), Normalized(c, config),
                            Normalized(p', inverted), Normalized(c', inverted), limits);
  }

  // ----- Sample sequences

  function IntervalAt(samples: seq<Sample>, i: nat, limits: Limits): Interval
    requires i + 1 < |samples|
  {
    Decide(Some(samples[i]), samples[i + 1], limits)
  }

  predicate SettledByCounter(samples: seq<Sample>, limits: Limits) {
    forall i: nat :: i + 1 < |samples| ==> IntervalAt(samples, i, limits).energyMethod == Counter
  }

  /** The business energy of the first n intervals. */
  function BusinessSum(samples: seq<Sample>, n: nat, limits: Limits): real
    requires n == 0 || n < |samples|
  {
    if n == 0 then 0.0 else BusinessSum(samples, n - 1, limits) + IntervalAt(samples, n - 1, limits).business
  }

  /** How many of the first n intervals moved the meter by no more than the noise floor. */
  function NoiseCount(samples: seq<Sample>, n: nat, limits: Limits): nat
    requires n == 0 || n < |samples|
  {
    if n == 0 then 0
    else NoiseCount(samples, n - 1, limits) + if NoiseStep(samples[n - 1], samples[n], limits) then 1 else 0
  }

  /** What the first n intervals billed beyond the meter's own steps. */
  function Drift(samples: seq<Sample>, n: nat, limits: Limits): real
    requires n < |samples|
    requires samples[0].energyCounter.Some? && samples[n].energyCounter.Some?
  {
    BusinessSum(samples, n, limits) - (samples[n].energyCounter.value - samples[0].energyCounter.value)
  }

  predicate WithinAllowance(drift: real, count: nat, floor: real) {
    Abs(drift) <= count as real * floor && (count == 0 ==> drift == 0.0)
  }

  lemma {:induction false} AllowanceGrows(drift: real, count: nat, floor: real, off: real, noisy: bool)
    requires WithinAllowance(drift, count, floor)
    requires if noisy then Abs(off) <= floor else off == 0.0
    ensures WithinAllowance(drift + off, if noisy then count + 1 else count, floor)
  {
    assert (count + 1) as real == count as real + 1.0;
    assert (count + 1) as real * floor == count as real * floor + floor;
  }

  /**
   When every interval is settled by the counter, the energy billed over the sequence telescopes to the
   difference of the end readings, up to one noise floor for each interval that stayed within it.
   */
  lemma {:induction false} CounterTelescopes(samples: seq<Sample>, n: nat, limits: Limits)
    requires 0 < n < |samples| && SettledByCounter(samples, limits)
    ensures samples[0].energyCounter.Some? && samples[n].energyCounter.Some?
    ensures WithinAllowance(Drift(samples, n, limits), NoiseCount(samples, n, limits), limits.noiseFloor)
  {
    MeterInterval(samples, n - 1, limits);
    var off := Excess(samples, n - 1, limits);
    var noisy := NoiseStep(samples[n - 1], samples[n], limits);
    if n == 1 {
      assert WithinAllowance(0.0, 0, limits.noiseFloor);
      AllowanceGrows(0.0, 0, limits.noiseFloor, off, noisy);
      FirstDrift(samples, limits);
    } else {
      CounterTelescopes(samples, n - 1, limits);
      AllowanceGrows(Drift(samples, n - 1, limits), NoiseCount(samples, n - 1, limits), limits.noiseFloor, off, noisy);
      DriftGrows(samples, n, limits);
    }
  }

  /** What one interval bills beyond its own meter step. */
  function Excess(samples: seq<Sample>, i: nat, limits: Limits): real
    requires i + 1 < |samples|
    requires samples[i].energyCounter.Some? && samples[i + 1].energyCounter.Some?
  {
    IntervalAt(samples, i, limits).business - (samples[i + 1].energyCounter.value - samples[i].energyCounter.value)
  }

  lemma {:induction false} FirstDrift(samples: seq<Sample>, limits: Limits)
    requires 1 < |samples| && samples[0].energyCounter.Some? && samples[1].energyCounter.Some?
    ensures Drift(samples, 1, limits) == Excess(samples, 0, limits)
    ensures NoiseCount(samples, 1, limits) == if NoiseStep(samples[0], samples[1], limits) then 1 else 0
  {
    assert BusinessSum(samples, 0, limits) == 0.0 && NoiseCount(samples, 0, limits) == 0;
  }

  lemma {:induction false} DriftGrows(samples: seq<Sample>, n: nat, limits: Limits)
    requires 1 < n < |samples|
    requires samples[0].energyCounter.Some? && samples[n - 1].energyCounter.Some? && samples[n].energyCounter.Some?
    ensures Drift(samples, n, limits) == Drift(samples, n - 1, limits) + Excess(samples, n - 1, limits)
    ensures NoiseCount(samples, n, limits) ==
            NoiseCount(samples, n - 1, limits) + if NoiseStep(samples[n - 1], samples[n], limits) then 1 else 0
  {
  }

  lemma {:induction false} MeterInterval(samples: seq<Sample>, i: nat, limits: Limits)
    requires i + 1 < |samples| && SettledByCounter(samples, limits)
    ensures samples[i].energyCounter.Some? && samples[i + 1].energyCounter.Some?
    ensures if NoiseStep(samples[i], samples[i + 1], limits) then Abs(Excess(samples, i, limits)) <= limits.noiseFloor
            else Excess(samples, i, limits) == 0.0
  {
    assert IntervalAt(samples, i, limits).energyMethod == Counter;
    assert Elapsed(samples[i], samples[i + 1]) > 0.0;
    CounterCreditExactly(samples[i], samples[i + 1], limits);
  }
}
