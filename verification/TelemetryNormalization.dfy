/**
 Normalisation of one raw telemetry payload: alias resolution, kW and W units,
 polarity, power factor, and the split of net power into import and export.
 */
module TelemetryNormalization {
  import opened Common

  /** The payload keys the normaliser looks at; any other key is Other. */
  datatype Field =
    | ActivePowerKw | PowerKw | ActivePower | Power
    | PowerFactor | Pf | CosPhi | PowerFactorWord
    | Current | PhaseCurrent | Voltage
    | EnergyKwh | Kwh | Energy
    | PhaseDiagnostic(name: string)
    | Other(name: string)

  const POWER_FIELDS := [ActivePowerKw, PowerKw, ActivePower, Power]
  const POWER_FACTOR_FIELDS := [PowerFactor, Pf, CosPhi, PowerFactorWord]
  const CURRENT_FIELDS := [Current, PhaseCurrent]
  const VOLTAGE_FIELDS := [Voltage]
  const ENERGY_FIELDS := [EnergyKwh, Kwh, Energy]
  const CONFLICT_TOLERANCE_W := 1.0

  /** The payload keys whose value converts to a float, with that float. */
  type Readings = map<Field, real>

  /** readAt is what the clock shows when the payload is normalised; it stands in for a missing timestamp. */
  datatype Payload = Payload(timestamp: Option<real>, readings: Readings, readAt: real)

  datatype FlowMode = ConsumptionOnly | Bidirectional
  datatype Polarity = NormalPolarity | InvertedPolarity
  datatype PowerConfig = PowerConfig(flow: FlowMode, polarity: Polarity)

  const DEFAULT_CONFIG := PowerConfig(ConsumptionOnly, NormalPolarity)

  datatype Flag =
    // raised while normalising one payload
    | ActivePowerAliasUsed | ActivePowerConflict | PhaseDiagnosticsPresent | PowerMissing
    | PolarityInvertedApplied | SignedPowerSeen | ExportSeen | SignedPfSeen | PfUntrusted
    | RawCurrentNegativeSeen | RawVoltageNegativeSeen
    // raised while comparing two samples
    | FirstSample | DuplicateOrOutOfOrder | CounterNoiseFloorApplied | CounterResetDetected
    | CounterReverseSeen | CounterGapExceeded | CounterImplausibleHardMax | CounterImplausibleVsPower
    | CounterMissing | LongGapFallbackBlocked | InsufficientPowerForFallback
    | FallbackIntegration | PowerDerivedFromViPf

  const NORMALISATION_FLAGS := {
    ActivePowerAliasUsed, ActivePowerConflict, PhaseDiagnosticsPresent, PowerMissing,
    PolarityInvertedApplied, SignedPowerSeen, ExportSeen, SignedPfSeen, PfUntrusted,
    RawCurrentNegativeSeen, RawVoltageNegativeSeen
  }

  datatype Direction = UnknownDirection | Importing | Exporting | ZeroPower

  datatype Sample = Sample(
    timestamp: real,
    rawPower: Option<real>,
    rawActivePower: Option<real>,
    rawPowerFactor: Option<real>,
    rawCurrent: Option<real>,
    rawVoltage: Option<real>,
    rawEnergy: Option<real>,
    powerField: Option<Field>,
    powerFactorField: Option<Field>,
    energyField: Option<Field>,
    netPower: Option<real>,
    importPower: real,
    exportPower: real,
    businessPower: real,
    pfSigned: Option<real>,
    pfBusiness: Option<real>,
    current: Option<real>,
    voltage: Option<real>,
    energyCounter: Option<real>,
    direction: Direction,
    flags: set<Flag>)

  // ----- Alias resolution

  function Watts(field: Field, value: real): real {
    if field == ActivePowerKw || field == PowerKw then value * 1000.0 else value
  }

  function Lookup(readings: Readings, field: Field): Option<real> {
    if field in readings then Some(readings[field]) else None
  }

  /** The first of the fields, in order, that the payload carries. */
  function FirstPresent(fields: seq<Field>, readings: Readings): Option<Field> {
    if fields == [] then None
    else if fields[0] in readings then Some(fields[0])
    else FirstPresent(fields[1..], readings)
  }

  function FirstValue(fields: seq<Field>, readings: Readings): Option<real> {
    match FirstPresent(fields, readings)
    case None => None
    case Some(field) => Lookup(readings, field)
  }

  lemma {:induction false} FirstPresentIsFirst(fields: seq<Field>, readings: Readings, k: nat)
    requires k < |fields| && fields[k] in readings
    requires forall j :: 0 <= j < k ==> fields[j] !in readings
    ensures FirstPresent(fields, readings) == Some(fields[k])
  {
    if k > 0 {
      FirstPresentIsFirst(fields[1..], readings, k - 1);
    }
  }

  lemma {:induction false} FirstPresentNone(fields: seq<Field>, readings: Readings)
    requires forall j :: 0 <= j < |fields| ==> fields[j] !in readings
    ensures FirstPresent(fields, readings) == None
  {
    if fields != [] {
      FirstPresentNone(fields[1..], readings);
    }
  }

  method ResolveFirst(fields: seq<Field>, readings: Readings)
    returns (value: Option<real>, field: Option<Field>)
    ensures field == FirstPresent(fields, readings)
    ensures value == FirstValue(fields, readings)
  {
    for i := 0 to |fields|
      invariant forall j :: 0 <= j < i ==> fields[j] !in readings
    {
      if fields[i] in readings {
        FirstPresentIsFirst(fields, readings, i);
        return Some(readings[fields[i]]), Some(fields[i]);
      }
    }
    FirstPresentNone(fields, readings);
    return None, None;
  }

  /** The first present alias, in watts. */
  function WinningWatts(fields: seq<Field>, readings: Readings): Option<real> {
    match FirstPresent(fields, readings)
    case None => None
    case Some(field) => if field in readings then Some(Watts(field, readings[field])) else None
  }

  function ActiveWatts(readings: Readings): Option<real> {
    WinningWatts(POWER_FIELDS, readings)
  }

  /** Two different aliases of active power are both present. */
  predicate AliasesOverlap(fields: seq<Field>, readings: Readings) {
    exists f, g :: f in fields && g in fields && f in readings && g in readings && f != g
  }

  /** Some alias is further than the tolerance from the one that wins. */
  predicate AliasesConflict(fields: seq<Field>, readings: Readings) {
    var winner := WinningWatts(fields, readings);
    winner.Some? &&
    exists f :: f in fields && f in readings && Abs(Watts(f, readings[f]) - winner.value) > CONFLICT_TOLERANCE_W
  }

  function When(condition: bool, flag: Flag): set<Flag> {
    if condition then {flag} else {}
  }

  function AliasFlags(readings: Readings): set<Flag> {
    When(AliasesOverlap(POWER_FIELDS, readings), ActivePowerAliasUsed)
    + When(AliasesConflict(POWER_FIELDS, readings), ActivePowerConflict)
  }

  method ResolveActivePower(readings: Readings)
    returns (value: Option<real>, field: Option<Field>, flags: set<Flag>)
    ensures value == ActiveWatts(readings)
    ensures field == FirstPresent(POWER_FIELDS, readings)
    ensures flags == AliasFlags(readings)
  {
    var candidates;
    value, field, candidates := CollectActivePower(POWER_FIELDS, readings);
    flags := {};
    if |candidates| > 1 {
      flags := flags + {ActivePowerAliasUsed};
      if SomeCandidateConflicts(candidates) {
        flags := flags + {ActivePowerConflict};
      }
    }
    OverlapIsTwoCandidates(POWER_FIELDS, readings);
    ConflictIsOffBaseline(POWER_FIELDS, readings);
  }

  /** The candidate list: every present alias of `fields`, in order, in watts. */
  function Candidates(fields: seq<Field>, readings: Readings): seq<(Field, real)> {
    if fields == [] then []
    else
      var rest := Candidates(fields[..|fields| - 1], readings);
      var field := fields[|fields| - 1];
      if field in readings then rest + [(field, Watts(field, readings[field]))] else rest
  }

  method CollectActivePower(fields: seq<Field>, readings: Readings)
    returns (value: Option<real>, field: Option<Field>, candidates: seq<(Field, real)>)
    ensures candidates == Candidates(fields, readings)
    ensures field == FirstPresent(fields, readings)
    ensures candidates == [] ==> value == None && field == None
    ensures candidates != [] ==> field == Some(candidates[0].0) && value == Some(candidates[0].1)
    ensures field.Some? ==> field.value in readings && value == Some(Watts(field.value, readings[field.value]))
  {
    value, field, candidates := None, None, [];
    for i := 0 to |fields|
      invariant candidates == Candidates(fields[..i], readings)
      invariant field == FirstPresent(fields[..i], readings)
      invariant candidates == [] ==> value == None && field == None
      invariant candidates != [] ==> field == Some(candidates[0].0) && value == Some(candidates[0].1)
      invariant field.Some? ==> field.value in readings && value == Some(Watts(field.value, readings[field.value]))
    {
      assert fields[..i + 1][..i] == fields[..i];
      FirstPresentExtends(fields[..i], readings, fields[i]);
      assert fields[..i] + [fields[i]] == fields[..i + 1];
      if fields[i] in readings {
        var watts := Watts(fields[i], readings[fields[i]]);
        candidates := candidates + [(fields[i], watts)];
        if field == None {
          field, value := Some(fields[i]), Some(watts);
        }
      }
    }
    assert fields[..|fields|] == fields;
  }

  lemma {:induction false} FirstPresentExtends(fields: seq<Field>, readings: Readings, last: Field)
    ensures FirstPresent(fields + [last], readings) ==
            if FirstPresent(fields, readings).Some? then FirstPresent(fields, readings)
            else if last in readings then Some(last) else None
  {
    if fields != [] {
      assert (fields + [last])[1..] == fields[1..] + [last];
      FirstPresentExtends(fields[1..], readings, last);
    } else {
      assert (fields + [last])[1..] == [];
    }
  }

  predicate Distinct(fields: seq<Field>) {
    forall i, j :: 0 <= i < j < |fields| ==> fields[i] != fields[j]
  }

  predicate IsCandidate(c: (Field, real), fields: seq<Field>, readings: Readings) {
    c.0 in fields && c.0 in readings && c.1 == Watts(c.0, readings[c.0])
  }

  predicate OnePerField(cs: seq<(Field, real)>) {
    forall c, d :: 0 <= c < d < |cs| ==> cs[c].0 != cs[d].0
  }

  lemma {:induction false} CandidatesArePresent(fields: seq<Field>, readings: Readings)
    requires Distinct(fields)
    ensures forall c :: c in Candidates(fields, readings) ==> IsCandidate(c, fields, readings)
    ensures OnePerField(Candidates(fields, readings))
  {
    if fields != [] {
      var init, last := fields[..|fields| - 1], fields[|fields| - 1];
      assert fields == init + [last];
      CandidatesArePresent(init, readings);
      forall c | c in Candidates(init, readings) ensures c.0 != last {
        assert IsCandidate(c, init, readings);
      }
    }
  }

  lemma {:induction false} PresentAreCandidates(fields: seq<Field>, readings: Readings, f: Field) returns (c: nat)
    requires f in fields && f in readings
    ensures c < |Candidates(fields, readings)| && Candidates(fields, readings)[c].0 == f
  {
    var init, last := fields[..|fields| - 1], fields[|fields| - 1];
    assert fields == init + [last];
    if f == last {
      c := |Candidates(init, readings)|;
    } else {
      c := PresentAreCandidates(init, readings, f);
    }
  }

  lemma {:induction false} WinnerIsFirstCandidate(fields: seq<Field>, readings: Readings)
    ensures var cs := Candidates(fields, readings);
      FirstPresent(fields, readings) == if cs == [] then None else Some(cs[0].0)
  {
    if fields != [] {
      var init, last := fields[..|fields| - 1], fields[|fields| - 1];
      WinnerIsFirstCandidate(init, readings);
      FirstPresentExtends(init, readings, last);
      assert fields == init + [last];
    }
  }

  /** The candidates are exactly the present aliases, each once, the winner first. */
  lemma {:induction false} CandidatesExact(fields: seq<Field>, readings: Readings)
    requires Distinct(fields)
    ensures var cs := Candidates(fields, readings);
      && (forall c :: 0 <= c < |cs|
            ==> cs[c].0 in fields && cs[c].0 in readings && cs[c].1 == Watts(cs[c].0, readings[cs[c].0]))
      && (forall f :: f in fields && f in readings ==> exists c :: 0 <= c < |cs| && cs[c].0 == f)
      && OnePerField(cs)
      && FirstPresent(fields, readings) == if cs == [] then None else Some(cs[0].0)
  {
    hide Candidates, FirstPresent, Watts;
    CandidatesArePresent(fields, readings);
    WinnerIsFirstCandidate(fields, readings);
    var cs := Candidates(fields, readings);
    forall c | 0 <= c < |cs| ensures IsCandidate(cs[c], fields, readings) {
      assert cs[c] in cs;
    }
    forall f | f in fields && f in readings ensures exists c :: 0 <= c < |cs| && cs[c].0 == f {
      var c := PresentAreCandidates(fields, readings, f);
      assert cs[c].0 == f;
    }
  }

  lemma {:induction false} OverlapIsTwoCandidates(fields: seq<Field>, readings: Readings)
    requires Distinct(fields)
    ensures |Candidates(fields, readings)| > 1 <==> AliasesOverlap(fields, readings)
  {
    CandidatesExact(fields, readings);
    var cs := Candidates(fields, readings);
    if |cs| > 1 {
      assert cs[0].0 != cs[1].0;
    }
    if AliasesOverlap(fields, readings) {
      var f, g :| f in fields && g in fields && f in readings && g in readings && f != g;
      var c :| 0 <= c < |cs| && cs[c].0 == f;
      var d :| 0 <= d < |cs| && cs[d].0 == g;
      assert c != d;
    }
  }

  predicate SomeCandidateConflicts(cs: seq<(Field, real)>) {
    exists c :: 1 <= c < |cs| && Abs(cs[c].1 - cs[0].1) > CONFLICT_TOLERANCE_W
  }

  lemma {:induction false} ConflictIsOffBaseline(fields: seq<Field>, readings: Readings)
    requires Distinct(fields)
    ensures SomeCandidateConflicts(Candidates(fields, readings)) <==> AliasesConflict(fields, readings)
  {
    hide Distinct, Candidates;
    CandidatesExact(fields, readings);
    var cs := Candidates(fields, readings);
    if SomeCandidateConflicts(cs) {
      var c :| 1 <= c < |cs| && Abs(cs[c].1 - cs[0].1) > CONFLICT_TOLERANCE_W;
      var f := cs[c].0;
      assert f in fields && f in readings;
    }
    if AliasesConflict(fields, readings) {
      var f :| f in fields && f in readings && Abs(Watts(f, readings[f]) - cs[0].1) > CONFLICT_TOLERANCE_W;
      var c :| 0 <= c < |cs| && cs[c].0 == f;
      assert c != 0;
    }
  }

  // ----- Normalisation

  function Signed(config: PowerConfig, value: Option<real>): Option<real> {
    match value
    case None => None
    case Some(v) => Some(if config.polarity == InvertedPolarity then -v else v)
  }

  function OrZero(value: Option<real>): real {
    match value
    case None => 0.0
    case Some(v) => v
  }

  function Magnitude(value: Option<real>): Option<real> {
    match value
    case None => None
    case Some(v) => Some(Abs(v))
  }

  predicate Negative(value: Option<real>) {
    value.Some? && value.value < 0.0
  }

  /** A power factor is trusted for business use only when its magnitude is in (0, 1]. */
  function BusinessPf(pf: Option<real>): Option<real> {
    if pf.Some? && 0.0 < Abs(pf.value) <= 1.0 then Some(Abs(pf.value)) else None
  }

  function DirectionOf(net: Option<real>): Direction {
    match net
    case None => UnknownDirection
    case Some(p) => if p > 0.0 then Importing else if p < 0.0 then Exporting else ZeroPower
  }

  function ExportedPower(config: PowerConfig, net: Option<real>): real {
    if config.flow == Bidirectional then Max(-OrZero(net), 0.0) else 0.0
  }

  /** The raw values picked out of a payload, before polarity and units of direction are settled. */
  datatype Raw = Raw(
    power: Option<real>, activePower: Option<real>, powerFactor: Option<real>,
    current: Option<real>, voltage: Option<real>, energy: Option<real>,
    powerField: Option<Field>, powerFactorField: Option<Field>, energyField: Option<Field>)

  function RawOf(readings: Readings): Raw {
    Raw(Lookup(readings, Power), ActiveWatts(readings), FirstValue(POWER_FACTOR_FIELDS, readings),
        FirstValue(CURRENT_FIELDS, readings), FirstValue(VOLTAGE_FIELDS, readings),
        FirstValue(ENERGY_FIELDS, readings), FirstPresent(POWER_FIELDS, readings),
        FirstPresent(POWER_FACTOR_FIELDS, readings), FirstPresent(ENERGY_FIELDS, readings))
  }

  function SampleOf(timestamp: real, raw: Raw, config: PowerConfig, payloadFlags: set<Flag>): Sample {
    var net := Signed(config, raw.activePower);
    var pf := Signed(config, raw.powerFactor);
    Sample(
      timestamp, raw.power, raw.activePower, raw.powerFactor, raw.current, raw.voltage, raw.energy,
      raw.powerField, raw.powerFactorField, raw.energyField,
      net, Max(OrZero(net), 0.0), ExportedPower(config, net), Max(OrZero(net), 0.0),
      pf, BusinessPf(pf), Magnitude(raw.current), Magnitude(raw.voltage), raw.energy,
      DirectionOf(net), payloadFlags + SignFlags(raw, config))
  }

  function SignFlags(raw: Raw, config: PowerConfig): set<Flag> {
    var net := Signed(config, raw.activePower);
    var pf := Signed(config, raw.powerFactor);
    When(net == None, PowerMissing)
    + When(config.polarity == InvertedPolarity, PolarityInvertedApplied)
    + When(Negative(net), SignedPowerSeen)
    + When(ExportedPower(config, net) > 0.0, ExportSeen)
    + When(Negative(pf), SignedPfSeen)
    + When(pf.Some? && BusinessPf(pf) == None, PfUntrusted)
    + When(Negative(raw.current), RawCurrentNegativeSeen)
    + When(Negative(raw.voltage), RawVoltageNegativeSeen)
  }

  function PayloadFlags(readings: Readings): set<Flag> {
    AliasFlags(readings)
    + When(exists field :: field in readings && field.PhaseDiagnostic?, PhaseDiagnosticsPresent)
  }

  function Instant(payload: Payload): real {
    if payload.timestamp.Some? then payload.timestamp.value else payload.readAt
  }

  /** The sample a payload stands for. */
  function Normalized(payload: Payload, config: PowerConfig): Sample {
    SampleOf(Instant(payload), RawOf(payload.readings), config, PayloadFlags(payload.readings))
  }

  method NormalizeTelemetrySample(payload: Payload, config: PowerConfig) returns (sample: Sample)
    ensures sample == Normalized(payload, config)
  {
    var readings := payload.readings;
    var activePower, powerField, flags := ResolveActivePower(readings);
    var powerFactor, powerFactorField := ResolveFirst(POWER_FACTOR_FIELDS, readings);
    var current, _ := ResolveFirst(CURRENT_FIELDS, readings);
    var voltage, _ := ResolveFirst(VOLTAGE_FIELDS, readings);
    var energy, energyField := ResolveFirst(ENERGY_FIELDS, readings);
    var raw := Raw(Lookup(readings, Power), activePower, powerFactor, current, voltage, energy,
                   powerField, powerFactorField, energyField);
    if exists field :: field in readings && field.PhaseDiagnostic? {
      flags := flags + {PhaseDiagnosticsPresent};
    }
    assert flags == PayloadFlags(readings);
    PowerReadIsActivePower(readings);
    sample := SettleSigns(Instant(payload), raw, config, flags);
  }

  method SettleSigns(timestamp: real, raw: Raw, config: PowerConfig, payloadFlags: set<Flag>) returns (sample: Sample)
    requires raw.power.Some? ==> raw.activePower.Some?
    ensures sample == SampleOf(timestamp, raw, config, payloadFlags)
  {
    var net, exportPower, direction := SettlePower(raw.activePower, config);
    var pfSigned, pfBusiness := SettlePowerFactor(raw.powerFactor, config);
    var importPower := Max(OrZero(net), 0.0);
    var flags := When(raw.activePower == None && raw.power == None, PowerMissing);
    flags := flags + When(config.polarity == InvertedPolarity, PolarityInvertedApplied);
    flags := flags + When(Negative(net), SignedPowerSeen);
    flags := flags + When(exportPower > 0.0, ExportSeen);
    flags := flags + When(Negative(pfSigned), SignedPfSeen);
    flags := flags + When(pfSigned.Some? && pfBusiness == None, PfUntrusted);
    flags := flags + When(Negative(raw.current), RawCurrentNegativeSeen);
    flags := flags + When(Negative(raw.voltage), RawVoltageNegativeSeen);
    sample := Sample(
      timestamp, raw.power, raw.activePower, raw.powerFactor, raw.current, raw.voltage, raw.energy,
      raw.powerField, raw.powerFactorField, raw.energyField,
      net, importPower, exportPower, importPower, pfSigned, pfBusiness,
      Magnitude(raw.current), Magnitude(raw.voltage), raw.energy, direction, payloadFlags + flags);
  }

  method SettlePower(active: Option<real>, config: PowerConfig)
    returns (net: Option<real>, exportPower: real, direction: Direction)
    ensures net == Signed(config, active)
    ensures exportPower == ExportedPower(config, net)
    ensures direction == DirectionOf(net)
  {
    net, direction := None, UnknownDirection;
    if active.Some? {
      net := Some(if config.polarity == InvertedPolarity then -active.value else active.value);
      if net.value > 0.0 {
        direction := Importing;
      } else if net.value < 0.0 {
        direction := Exporting;
      } else {
        direction := ZeroPower;
      }
    }
    exportPower := if config.flow == Bidirectional then Max(-OrZero(net), 0.0) else 0.0;
  }

  method SettlePowerFactor(raw: Option<real>, config: PowerConfig)
    returns (signed: Option<real>, business: Option<real>)
    ensures signed == Signed(config, raw)
    ensures business == BusinessPf(signed)
  {
    signed, business := None, None;
    if raw.Some? {
      signed := Some(if config.polarity == InvertedPolarity then -raw.value else raw.value);
      var magnitude := Abs(signed.value);
      if 0.0 < magnitude <= 1.0 {
        business := Some(magnitude);
      }
    }
  }

  /** `power` is the last alias of active power, so a payload that carries it always resolves. */
  lemma {:induction false} PowerReadIsActivePower(readings: Readings)
    ensures Lookup(readings, Power).Some? ==> ActiveWatts(readings).Some?
  {
    if Power in readings {
      assert POWER_FIELDS[3] == Power;
      FirstPresentSome(POWER_FIELDS, readings, 3);
    }
  }

  lemma {:induction false} FirstPresentSome(fields: seq<Field>, readings: Readings, k: nat)
    requires k < |fields| && fields[k] in readings
    ensures FirstPresent(fields, readings).Some?
    ensures FirstPresent(fields, readings).value in fields && FirstPresent(fields, readings).value in readings
  {
    if fields[0] !in readings {
      FirstPresentSome(fields[1..], readings, k - 1);
    }
  }

  // ----- Properties of a normalised sample

  /** The power of a payload does not depend on whether its winning alias is in kW or in W. */
  lemma {:induction false} UnitsAgree(readings: Readings, kw: Field)
    requires FirstPresent(POWER_FIELDS, readings) == Some(kw)
             && (kw == ActivePowerKw || kw == PowerKw) && kw in readings
    ensures var inWatts := (readings - {ActivePowerKw, PowerKw})[ActivePower := readings[kw] * 1000.0];
      ActiveWatts(inWatts) == ActiveWatts(readings)
  {
    var inWatts := (readings - {ActivePowerKw, PowerKw})[ActivePower := readings[kw] * 1000.0];
    assert POWER_FIELDS[2] == ActivePower && POWER_FIELDS[0] !in inWatts && POWER_FIELDS[1] !in inWatts;
    FirstPresentIsFirst(POWER_FIELDS, inWatts, 2);
  }

  /**
   Net power is conserved by the import and export split: the two are non-negative, never both
   positive, and in bidirectional mode their difference is the signed power that was measured.
   A consumption-only device loses exactly the exported part.
   */
  lemma {:induction false} ImportExportSplit(payload: Payload, config: PowerConfig)
    ensures var s := Normalized(payload, config);
      && s.importPower >= 0.0 && s.exportPower >= 0.0
      && (s.importPower == 0.0 || s.exportPower == 0.0)
      && s.businessPower == s.importPower
      && (config.flow == Bidirectional ==> s.importPower - s.exportPower == OrZero(s.netPower))
      && (config.flow == ConsumptionOnly ==> s.exportPower == 0.0)
      && (ExportSeen in s.flags <==> s.exportPower > 0.0)
      && (s.pfBusiness.Some? ==> 0.0 < s.pfBusiness.value <= 1.0)
  {
    FlagsOfNormalisation(payload, config);
  }

  /** Normalising never raises a flag of the interval comparison. */
  lemma {:induction false} FlagsOfNormalisation(payload: Payload, config: PowerConfig)
    ensures Normalized(payload, config).flags <= NORMALISATION_FLAGS
    ensures ExportSeen in Normalized(payload, config).flags <==> Normalized(payload, config).exportPower > 0.0
  {
    AliasFlagsBounded(payload.readings);
    SignFlagsBounded(RawOf(payload.readings), config);
  }

  lemma {:induction false} AliasFlagsBounded(readings: Readings)
    ensures PayloadFlags(readings) <= NORMALISATION_FLAGS - {ExportSeen}
  {
  }

  lemma {:induction false} SignFlagsBounded(raw: Raw, config: PowerConfig)
    ensures SignFlags(raw, config) <= NORMALISATION_FLAGS
    ensures ExportSeen in SignFlags(raw, config) <==> ExportedPower(config, Signed(config, raw.activePower)) > 0.0
  {
  }

  /** Two raw pickings that agree up to the sign of power, power factor, current and voltage. */
  predicate MirroredRaw(a: Raw, b: Raw) {
    && (a.power.None? <==> b.power.None?)
    && Opposite(a.activePower, b.activePower) && Opposite(a.powerFactor, b.powerFactor)
    && Magnitude(a.current) == Magnitude(b.current) && Magnitude(a.voltage) == Magnitude(b.voltage)
    && a.energy == b.energy
  }

  predicate Opposite(a: Option<real>, b: Option<real>) {
    (a.None? <==> b.None?) && (a.Some? && b.Some? ==> b.value == -a.value)
  }

  lemma {:induction false} MirroredRawAgrees(at: real, a: Raw, b: Raw, normal: PowerConfig, inverted: PowerConfig,
                          flagsA: set<Flag>, flagsB: set<Flag>)
    requires MirroredRaw(a, b)
    requires normal.polarity == NormalPolarity && inverted == normal.(polarity := InvertedPolarity)
    ensures SameForEnergy(SampleOf(at, a, normal, flagsA), SampleOf(at, b, inverted, flagsB))
    ensures SampleOf(at, a, normal, flagsA).netPower == SampleOf(at, b, inverted, flagsB).netPower
    ensures SampleOf(at, a, normal, flagsA).direction == SampleOf(at, b, inverted, flagsB).direction
  {
  }

  predicate SameOrNegated(a: real, b: real) {
    a == b || a == -b
  }

  /**
   The second payload reports the same instant and counter, with every active-power and
   power-factor alias negated, and with current and voltage negated or not, field by field.
   */
  predicate Mirrored(p: Payload, q: Payload) {
    && p.timestamp == q.timestamp && p.readAt == q.readAt
    && p.readings.Keys == q.readings.Keys
    && (forall f :: f in POWER_FIELDS && f in p.readings ==> q.readings[f] == -p.readings[f])
    && (forall f :: f in POWER_FACTOR_FIELDS && f in p.readings ==> q.readings[f] == -p.readings[f])
    && (forall f :: f in CURRENT_FIELDS && f in p.readings ==> SameOrNegated(q.readings[f], p.readings[f]))
    && (forall f :: f in VOLTAGE_FIELDS && f in p.readings ==> SameOrNegated(q.readings[f], p.readings[f]))
    && (forall f :: f in ENERGY_FIELDS && f in p.readings ==> q.readings[f] == p.readings[f])
  }

  lemma {:induction false} FirstPresentByKeys(fields: seq<Field>, r: Readings, s: Readings)
    requires r.Keys == s.Keys
    ensures FirstPresent(fields, r) == FirstPresent(fields, s)
    ensures FirstPresent(fields, r).Some? ==>
              FirstPresent(fields, r).value in fields && FirstPresent(fields, r).value in r
  {
    if fields != [] {
      assert fields[0] in r.Keys <==> fields[0] in s.Keys;
      if fields[0] !in r {
        FirstPresentByKeys(fields[1..], r, s);
      }
    }
  }

  lemma {:induction false} MirroredPower(p: Payload, q: Payload)
    requires Mirrored(p, q)
    ensures Opposite(ActiveWatts(p.readings), ActiveWatts(q.readings))
    ensures Lookup(p.readings, Power).None? <==> Lookup(q.readings, Power).None?
  {
    FirstPresentByKeys(POWER_FIELDS, p.readings, q.readings);
    assert Power in p.readings.Keys <==> Power in q.readings.Keys;
  }

  lemma {:induction false} MirroredPowerFactor(p: Payload, q: Payload)
    requires Mirrored(p, q)
    ensures Opposite(FirstValue(POWER_FACTOR_FIELDS, p.readings), FirstValue(POWER_FACTOR_FIELDS, q.readings))
  {
    FirstPresentByKeys(POWER_FACTOR_FIELDS, p.readings, q.readings);
  }

  lemma {:induction false} MirroredMagnitudes(p: Payload, q: Payload)
    requires Mirrored(p, q)
    ensures Magnitude(FirstValue(CURRENT_FIELDS, p.readings)) == Magnitude(FirstValue(CURRENT_FIELDS, q.readings))
    ensures Magnitude(FirstValue(VOLTAGE_FIELDS, p.readings)) == Magnitude(FirstValue(VOLTAGE_FIELDS, q.readings))
    ensures FirstValue(ENERGY_FIELDS, p.readings) == FirstValue(ENERGY_FIELDS, q.readings)
  {
    FirstPresentByKeys(CURRENT_FIELDS, p.readings, q.readings);
    FirstPresentByKeys(VOLTAGE_FIELDS, p.readings, q.readings);
    FirstPresentByKeys(ENERGY_FIELDS, p.readings, q.readings);
  }

  /** Everything the energy decision reads from a sample. */
  predicate SameForEnergy(s: Sample, t: Sample) {
    && s.timestamp == t.timestamp
    && (s.rawActivePower.None? <==> t.rawActivePower.None?)
    && (s.rawPower.None? <==> t.rawPower.None?)
    && s.businessPower == t.businessPower && s.exportPower == t.exportPower
    && s.pfBusiness == t.pfBusiness
    && s.current == t.current && s.voltage == t.voltage
    && s.energyCounter == t.energyCounter
  }

  /** Swapping the wiring polarity and configuring it as inverted yields the same sample for billing. */
  lemma {:induction false} MirroredSamplesAgree(p: Payload, q: Payload, normal: PowerConfig, inverted: PowerConfig)
    requires Mirrored(p, q)
    requires normal.polarity == NormalPolarity && inverted == normal.(polarity := InvertedPolarity)
    ensures SameForEnergy(Normalized(p, normal), Normalized(q, inverted))
    ensures Normalized(p, normal).netPower == Normalized(q, inverted).netPower
    ensures Normalized(p, normal).direction == Normalized(q, inverted).direction
  {
    MirroredPower(p, q);
    MirroredPowerFactor(p, q);
    MirroredMagnitudes(p, q);
    MirroredRawAgrees(Instant(p), RawOf(p.readings), RawOf(q.readings), normal, inverted,
                      PayloadFlags(p.readings), PayloadFlags(q.readings));
  }
}
