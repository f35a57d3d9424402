/** Health evaluation and the thermal gates in front of fan control. */
module HardwareHealth {
  import opened Commands

  /** A float64 telemetry value. */
  datatype Reading = Finite(value: real) | PosInf | NegInf | NaN
  {
    predicate AtLeast(x: real) { PosInf? || (Finite? && value >= x) }

    predicate Above(x: real) { PosInf? || (Finite? && value > x) }

    predicate AtMost(x: real) { NegInf? || (Finite? && value <= x) }

    predicate Below(x: real) { NegInf? || (Finite? && value < x) }

    predicate IsZero() { Finite? && value == 0.0 }

    predicate FiniteNonNegative() { Finite? && value >= 0.0 }

    predicate ValidTemperature() { Finite? && -20.0 <= value <= 125.0 }

    predicate ValidPercentage() { Finite? && 0.0 <= value <= 100.0 }
  }

  datatype FanChannel = FanChannel(
    id: string, backend: string, supported: bool,
    rpmAvailable: bool, rpm: Reading, percentAvailable: bool, percent: Reading)

  datatype Metrics = Metrics(
    cpuTemperature: Reading, gpuTemperature: Reading, thermalSafetyAvailable: bool,
    fanControlSupported: bool, fanControlBackend: string, fanRpm: Reading, fanChannels: seq<FanChannel>,
    batteryMeasured: bool, batteryHealth: Reading,
    cpuUsage: Reading, memoryUsage: Reading, volumeUsage: seq<Reading>, identityAvailable: bool)

  predicate RealBackend(backend: string) {
    backend != "" && backend != "monitor-only"
  }

  predicate Controllable(c: FanChannel) {
    c.supported && ValidFanChannelId(c.id) && RealBackend(c.backend)
  }

  method AnyControllable(channels: seq<FanChannel>) returns (any: bool)
    ensures any <==> exists c :: c in channels && Controllable(c)
  {
    for i := 0 to |channels|
      invariant forall c :: c in channels[..i] ==> !Controllable(c)
    {
      if Controllable(channels[i]) {
        return true;
      }
      assert channels[..i + 1] == channels[..i] + [channels[i]];
    }
    assert channels[..|channels|] == channels;
    return false;
  }

  ghost predicate ValidatedFanControl(m: Metrics) {
    m.fanControlSupported || exists c :: c in m.fanChannels && Controllable(c)
  }

  predicate CriticalReading(t: Reading) {
    t.Above(0.0) && t.ValidTemperature() && t.AtLeast(95.0)
  }

  // ----- anomalies

  datatype Severity = Warning | Critical

  datatype Anomaly = Anomaly(code: string, severity: Severity)

  datatype Safety = Safe | Warned | CriticalState | FailSafe

  datatype Recovery = NoAction | ReduceLoad | EmergencyCooling | StopControl | TrustedRepair

  datatype Status = Healthy | Degraded | Unsafe

  function When(b: bool, code: string, severity: Severity): seq<Anomaly> {
    if b then [Anomaly(code, severity)] else []
  }

  function TemperatureLevel(t: Reading, over: string, high: string): seq<Anomaly> {
    if t.AtLeast(95.0) then [Anomaly(over, Critical)]
    else When(t.AtLeast(85.0), high, Warning)
  }

  predicate ThermalLoadHigh(m: Metrics) {
    m.cpuTemperature.AtLeast(85.0) || m.gpuTemperature.AtLeast(85.0)
  }

  /** What one controllable channel reports under thermal load. */
  function ChannelAnomalies(c: FanChannel): seq<Anomaly> {
    if !c.rpmAvailable then [Anomaly("fan-rpm-unavailable-under-thermal-load", Warning)]
    else if !c.rpm.FiniteNonNegative() then [Anomaly("fan-rpm-invalid", Warning)]
    else if !c.rpm.IsZero() then []
    else if !c.percentAvailable then [Anomaly("fan-command-state-unavailable-under-thermal-load", Warning)]
    else if !c.percent.ValidPercentage() then [Anomaly("fan-command-state-invalid", Warning)]
    else When(c.percent.Above(0.0), "fan-stall-risk", Critical)
  }

  /** A stopped fan that was told to turn. */
  predicate Stalled(c: FanChannel) {
    c.rpmAvailable && c.rpm.IsZero() && c.percentAvailable && c.percent.ValidPercentage() && c.percent.Above(0.0)
  }

  /** The conditions that make the hardware state critical, stated on the telemetry. */
  ghost predicate CriticalCondition(m: Metrics) {
    || (m.cpuTemperature.Above(0.0) && !m.cpuTemperature.ValidTemperature())
    || (m.gpuTemperature.Above(0.0) && !m.gpuTemperature.ValidTemperature())
    || m.cpuTemperature.AtLeast(95.0) || m.gpuTemperature.AtLeast(95.0)
    || (ThermalLoadHigh(m) && (exists c :: c in m.fanChannels && Controllable(c) && Stalled(c)))
    || (ThermalLoadHigh(m) && (forall c :: c in m.fanChannels ==> !Controllable(c))
        && m.fanControlSupported && m.fanRpm.AtMost(0.0))
  }

  predicate HasCritical(anomalies: seq<Anomaly>) {
    exists a :: a in anomalies && a.severity == Critical
  }

  lemma {:induction false} CriticalOfConcat(a: seq<Anomaly>, b: seq<Anomaly>)
    ensures HasCritical(a + b) <==> HasCritical(a) || HasCritical(b)
  {
  }

  lemma {:induction false} CriticalOfChannel(c: FanChannel)
    ensures HasCritical(ChannelAnomalies(c)) <==> Stalled(c)
  {
  }

  /** Temperatures out of range or too high. */
  method TemperatureAnomalies(m: Metrics) returns (a: seq<Anomaly>)
    ensures HasCritical(a) <==>
              || (m.cpuTemperature.Above(0.0) && !m.cpuTemperature.ValidTemperature())
              || (m.gpuTemperature.Above(0.0) && !m.gpuTemperature.ValidTemperature())
              || m.cpuTemperature.AtLeast(95.0) || m.gpuTemperature.AtLeast(95.0)
    ensures a != [] <==> HasCritical(a) || ThermalLoadHigh(m)
  {
    var cpu, gpu := m.cpuTemperature, m.gpuTemperature;
    a := [];
    if cpu.Above(0.0) && !cpu.ValidTemperature() {
      a := a + [Anomaly("cpu-thermal-invalid", Critical)];
    }
    if gpu.Above(0.0) && !gpu.ValidTemperature() {
      a := a + [Anomaly("gpu-thermal-invalid", Critical)];
    }
    assert HasCritical(a) <==> |a| > 0 by {
      assert |a| > 0 ==> a[0].severity == Critical;
    }
    CriticalOfConcat(a, TemperatureLevel(cpu, "cpu-overtemperature", "cpu-temperature-high"));
    CriticalOfLevel(cpu, "cpu-overtemperature", "cpu-temperature-high");
    a := a + TemperatureLevel(cpu, "cpu-overtemperature", "cpu-temperature-high");
    CriticalOfConcat(a, TemperatureLevel(gpu, "gpu-overtemperature", "gpu-temperature-high"));
    CriticalOfLevel(gpu, "gpu-overtemperature", "gpu-temperature-high");
    a := a + TemperatureLevel(gpu, "gpu-overtemperature", "gpu-temperature-high");
  }

  lemma {:induction false} CriticalOfLevel(t: Reading, over: string, high: string)
    ensures HasCritical(TemperatureLevel(t, over, high)) <==> t.AtLeast(95.0)
  {
  }

  /** Fans under thermal load: the controllable channels, or the aggregate control if there are none. */
  method FanAnomalies(m: Metrics) returns (a: seq<Anomaly>)
    ensures HasCritical(a) <==>
              || (exists c :: c in m.fanChannels && Controllable(c) && Stalled(c))
              || ((forall c :: c in m.fanChannels ==> !Controllable(c)) && m.fanControlSupported && m.fanRpm.AtMost(0.0))
  {
    var controllable: seq<FanChannel> := [];
    for i := 0 to |m.fanChannels|
      invariant forall c :: c in controllable <==> c in m.fanChannels[..i] && Controllable(c)
    {
      assert m.fanChannels[..i + 1] == m.fanChannels[..i] + [m.fanChannels[i]];
      if Controllable(m.fanChannels[i]) {
        controllable := controllable + [m.fanChannels[i]];
      }
    }
    assert m.fanChannels[..|m.fanChannels|] == m.fanChannels;
    a := [];
    if |controllable| > 0 {
      assert controllable[0] in controllable;
      a := ChannelLoop(controllable);
    } else if m.fanControlSupported && m.fanRpm.AtMost(0.0) {
      a := [Anomaly("fan-stall-risk", Critical)];
      assert a[0].severity == Critical;
    }
  }

  predicate AnyStalled(channels: seq<FanChannel>) {
    exists c :: c in channels && Stalled(c)
  }

  lemma {:induction false} StalledOneMore(channels: seq<FanChannel>, c: FanChannel)
    ensures AnyStalled(channels + [c]) <==> AnyStalled(channels) || Stalled(c)
  {
  }

  method ChannelLoop(channels: seq<FanChannel>) returns (a: seq<Anomaly>)
    ensures HasCritical(a) <==> AnyStalled(channels)
  {
    a := [];
    for i := 0 to |channels|
      invariant HasCritical(a) <==> AnyStalled(channels[..i])
    {
      var c := channels[i];
      CriticalOfConcat(a, ChannelAnomalies(c));
      CriticalOfChannel(c);
      assert channels[..i + 1] == channels[..i] + [c];
      StalledOneMore(channels[..i], c);
      a := a + ChannelAnomalies(c);
    }
    assert channels[..|channels|] == channels;
  }

  /** Everything else is at most a warning. */
  predicate OtherWarnings(m: Metrics) {
    || !m.thermalSafetyAvailable
    || (m.batteryMeasured && m.batteryHealth.Above(0.0) && m.batteryHealth.Below(60.0))
    || !m.cpuUsage.ValidPercentage() || !m.memoryUsage.ValidPercentage()
    || exists i :: 0 <= i < |m.volumeUsage| && m.volumeUsage[i].AtLeast(95.0)
  }

  method OtherAnomalies(m: Metrics) returns (a: seq<Anomaly>)
    ensures !HasCritical(a) && (a != [] <==> OtherWarnings(m))
  {
    a := When(!m.thermalSafetyAvailable, "thermal-sensor-missing", Warning);
    if m.batteryMeasured && m.batteryHealth.Above(0.0) && m.batteryHealth.Below(60.0) {
      a := a + [Anomaly("battery-capacity-degraded", Warning)];
    }
    if !m.cpuUsage.ValidPercentage() {
      a := a + [Anomaly("cpu-utilization-invalid", Warning)];
    }
    if !m.memoryUsage.ValidPercentage() {
      a := a + [Anomaly("memory-utilization-invalid", Warning)];
    }
    ghost var before := a != [];
    for i := 0 to |m.volumeUsage|
      invariant forall x :: x in a ==> x.severity == Warning
      invariant a != [] <==> before || exists k :: 0 <= k < i && m.volumeUsage[k].AtLeast(95.0)
    {
      if m.volumeUsage[i].AtLeast(95.0) {
        a := a + [Anomaly("storage-near-full", Warning)];
      }
    }
  }

  /** The severity fold. */
  method Fold(anomalies: seq<Anomaly>) returns (s: Safety)
    ensures s == if HasCritical(anomalies) then CriticalState else if anomalies != [] then Warned else Safe
  {
    s := Safe;
    for i := 0 to |anomalies|
      invariant s == if HasCritical(anomalies[..i]) then CriticalState else if i > 0 then Warned else Safe
    {
      assert anomalies[..i + 1] == anomalies[..i] + [anomalies[i]];
      CriticalOfConcat(anomalies[..i], [anomalies[i]]);
      match anomalies[i].severity
      case Critical =>
        assert [anomalies[i]][0].severity == Critical;
        s := CriticalState;
      case Warning =>
        if s == Safe {
          s := Warned;
        }
    }
    assert anomalies[..|anomalies|] == anomalies;
  }

  predicate WellBelow(t: Reading) {
    t.Finite? && 0.0 <= t.value < 85.0
  }

  /** The whole evaluation. The safety state is the highest severity among the anomalies, overridden only by a
      failed integrity check; and it is critical exactly under the conditions stated on the telemetry. */
  method Evaluate(m: Metrics, integrityHealthy: bool)
    returns (status: Status, safety: Safety, recovery: Recovery, anomalies: seq<Anomaly>)
    ensures !integrityHealthy ==> safety == FailSafe && recovery == TrustedRepair && status == Unsafe
    ensures integrityHealthy ==>
              safety == if HasCritical(anomalies) then CriticalState else if anomalies != [] then Warned else Safe
    ensures integrityHealthy ==> (safety == CriticalState <==> CriticalCondition(m))
    ensures integrityHealthy && (m.cpuTemperature.AtLeast(95.0) || m.gpuTemperature.AtLeast(95.0)) ==> safety == CriticalState
    ensures integrityHealthy && (m.cpuTemperature.AtLeast(85.0) || m.gpuTemperature.AtLeast(85.0)) ==> safety != Safe
    ensures integrityHealthy && WellBelow(m.cpuTemperature) && WellBelow(m.gpuTemperature) ==> safety != CriticalState
    ensures integrityHealthy ==>
              (safety == Safe <==> !CriticalCondition(m) && !ThermalLoadHigh(m) && !OtherWarnings(m))
    ensures integrityHealthy ==>
              recovery == match safety
                          case CriticalState => if EmergencyRecommended(m) then EmergencyCooling else StopControl
                          case Warned => ReduceLoad
                          case _ => NoAction
    ensures recovery == EmergencyCooling <==> integrityHealthy && EmergencyRecommended(m)
    ensures integrityHealthy ==> (status == Healthy <==> anomalies == [] && m.identityAvailable)
  {
    var temperature := TemperatureAnomalies(m);
    var fans := [];
    if ThermalLoadHigh(m) {
      fans := FanAnomalies(m);
    }
    var others := OtherAnomalies(m);
    CriticalOfConcat(temperature, fans);
    CriticalOfConcat(temperature + fans, others);
    anomalies := temperature + fans + others;
    safety := Fold(anomalies);
    recovery := NoAction;
    var any := AnyControllable(m.fanChannels);
    if !integrityHealthy {
      safety, recovery := FailSafe, TrustedRepair;
      anomalies := anomalies + [Anomaly("runtime-integrity-failure", Critical)];
    } else if safety == CriticalState {
      recovery := if HasValidCriticalTemperature(m) && m.thermalSafetyAvailable && (m.fanControlSupported || any)
                  then EmergencyCooling else StopControl;
    } else if safety == Warned {
      recovery := ReduceLoad;
    }
    status := if safety == FailSafe then Unsafe
              else if safety != Safe || |anomalies| > 0 || !m.identityAvailable then Degraded else Healthy;
  }

  predicate HasValidCriticalTemperature(m: Metrics) {
    CriticalReading(m.cpuTemperature) || CriticalReading(m.gpuTemperature)
  }

  /** A valid critical temperature, with thermal telemetry and some validated fan control. */
  ghost predicate EmergencyRecommended(m: Metrics) {
    HasValidCriticalTemperature(m) && m.thermalSafetyAvailable && ValidatedFanControl(m)
  }

  // ----- the gates

  predicate ThermalTelemetryValid(m: Metrics) {
    && m.thermalSafetyAvailable
    && (m.cpuTemperature.IsZero() || m.cpuTemperature.ValidTemperature())
    && (m.gpuTemperature.IsZero() || m.gpuTemperature.ValidTemperature())
  }

  predicate CriticalThermalState(m: Metrics) {
    m.cpuTemperature.AtLeast(95.0) || m.gpuTemperature.AtLeast(95.0)
  }

  /** The gate of the aggregate fan command. */
  predicate FanSpeedAllowed(percent: real, m: Metrics) {
    && ThermalTelemetryValid(m)
    && m.fanControlSupported && RealBackend(m.fanControlBackend)
    && !(CriticalThermalState(m) && percent < 100.0)
  }

  /** The first channel with an id is supported by a real backend. */
  ghost predicate FirstIsUsable(channels: seq<FanChannel>, id: string) {
    exists i :: 0 <= i < |channels| && IsFirst(channels, id, i)
                && channels[i].supported && RealBackend(channels[i].backend)
  }

  ghost predicate IsFirst(channels: seq<FanChannel>, id: string, i: nat)
    requires i < |channels|
  {
    channels[i].id == id && forall j :: 0 <= j < i ==> channels[j].id != id
  }

  /** The gate of the fan-channel command. */
  ghost predicate FanChannelAllowed(target: string, percent: real, m: Metrics) {
    && ValidFanChannelId(target) && ValidFanPercent(percent) && ThermalTelemetryValid(m)
    && FirstIsUsable(m.fanChannels, target)
    && !(CriticalThermalState(m) && percent < 100.0)
  }

  method CheckFanChannel(target: string, percent: real, m: Metrics) returns (allowed: bool)
    ensures allowed <==> FanChannelAllowed(target, percent, m)
  {
    if !ValidFanChannelId(target) || !ValidFanPercent(percent) || !ThermalTelemetryValid(m) {
      return false;
    }
    var i := 0;
    while i < |m.fanChannels|
      invariant 0 <= i <= |m.fanChannels|
      invariant forall j :: 0 <= j < i ==> m.fanChannels[j].id != target
    {
      var channel := m.fanChannels[i];
      if channel.id == target {
        assert IsFirst(m.fanChannels, target, i);
        if !channel.supported || !RealBackend(channel.backend) {
          return false;
        }
        break;
      }
      i := i + 1;
    }
    if i == |m.fanChannels| {
      return false;
    }
    return !(CriticalThermalState(m) && percent < 100.0);
  }

  /** A sensor that is absent, or in range and below 95 degrees. */
  predicate Cool(t: Reading) {
    t.IsZero() || (t.Finite? && -20.0 <= t.value < 95.0)
  }

  /** While both sensors are cool every speed passes the gate of a usable control, and only of a usable one. */
  lemma {:induction false} CoolFansObey(m: Metrics, percent: real, id: string)
    requires m.thermalSafetyAvailable && Cool(m.cpuTemperature) && Cool(m.gpuTemperature)
    ensures FanSpeedAllowed(percent, m) <==> m.fanControlSupported && RealBackend(m.fanControlBackend)
    ensures FanChannelAllowed(id, percent, m) <==>
              ValidFanChannelId(id) && 0.0 < percent <= 100.0 && FirstIsUsable(m.fanChannels, id)
  {
  }

  /** Without thermal telemetry nothing passes. */
  lemma {:induction false} BlindFansAreLocked(m: Metrics, percent: real, id: string)
    requires !m.thermalSafetyAvailable
    ensures !FanSpeedAllowed(percent, m) && !FanChannelAllowed(id, percent, m)
  {
  }

  predicate OutOfRange(t: Reading) {
    !t.IsZero() && !t.ValidTemperature()
  }

  /** Beside a valid critical temperature, the other sensor reports something out of range. */
  predicate OtherSensorOutOfRange(m: Metrics) {
    || (CriticalReading(m.cpuTemperature) && OutOfRange(m.gpuTemperature))
    || (CriticalReading(m.gpuTemperature) && OutOfRange(m.cpuTemperature))
  }

  predicate Usable(c: FanChannel) {
    c.supported && RealBackend(c.backend)
  }

  /** An earlier channel with the same id is not usable. */
  ghost predicate Shadowed(channels: seq<FanChannel>, i: int)
    requires 0 <= i < |channels|
  {
    exists j :: 0 <= j < i && channels[j].id == channels[i].id && !Usable(channels[j])
  }

  /** The aggregate control is not usable, and every controllable channel is shadowed. */
  ghost predicate NothingUsable(m: Metrics) {
    && !(m.fanControlSupported && RealBackend(m.fanControlBackend))
    && forall i :: 0 <= i < |m.fanChannels| && Controllable(m.fanChannels[i]) ==> Shadowed(m.fanChannels, i)
  }

  ghost predicate FullSpeedRefused(m: Metrics) {
    !FanSpeedAllowed(100.0, m) && forall id :: !FanChannelAllowed(id, 100.0, m)
  }

  lemma {:induction false} FirstWithId(channels: seq<FanChannel>, i: nat) returns (k: nat)
    requires i < |channels|
    ensures k <= i && IsFirst(channels, channels[i].id, k)
    decreases i
  {
    if j :| 0 <= j < i && channels[j].id == channels[i].id {
      k := FirstWithId(channels, j);
    } else {
      k := i;
    }
  }

  /** A channel that is controllable and not shadowed makes its id usable. */
  lemma {:induction false} UnshadowedIsUsable(channels: seq<FanChannel>, i: nat)
    requires i < |channels| && Controllable(channels[i]) && !Shadowed(channels, i)
    ensures FirstIsUsable(channels, channels[i].id)
  {
    var k := FirstWithId(channels, i);
    assert Usable(channels[k]);
  }

  /** And a usable id belongs to one. */
  lemma {:induction false} UsableIsUnshadowed(channels: seq<FanChannel>, id: string) returns (i: nat)
    requires ValidFanChannelId(id) && FirstIsUsable(channels, id)
    ensures i < |channels| && channels[i].id == id && Controllable(channels[i]) && !Shadowed(channels, i)
  {
    i :| 0 <= i < |channels| && IsFirst(channels, id, i) && channels[i].supported && RealBackend(channels[i].backend);
  }

  /** When emergency cooling is recommended, full speed is refused if and only if the other sensor is out of range, or
      the aggregate control is unusable and every controllable channel is hidden behind an earlier unusable one with
      its id; and no lower speed ever passes. */
  lemma {:induction false} EmergencyCoolingGates(m: Metrics)
    requires EmergencyRecommended(m)
    ensures FullSpeedRefused(m) <==> OtherSensorOutOfRange(m) || NothingUsable(m)
    ensures forall percent :: percent < 100.0 ==> !FanSpeedAllowed(percent, m)
    ensures forall id, percent :: percent < 100.0 ==> !FanChannelAllowed(id, percent, m)
  {
    assert CriticalThermalState(m);
    assert ThermalTelemetryValid(m) <==> !OtherSensorOutOfRange(m);
    if FullSpeedRefused(m) && !OtherSensorOutOfRange(m) {
      forall i | 0 <= i < |m.fanChannels| && Controllable(m.fanChannels[i])
        ensures Shadowed(m.fanChannels, i)
      {
        if !Shadowed(m.fanChannels, i) {
          UnshadowedIsUsable(m.fanChannels, i);
          assert FanChannelAllowed(m.fanChannels[i].id, 100.0, m);
        }
      }
    }
    if id :| NothingUsable(m) && FanChannelAllowed(id, 100.0, m) {
      var i := UsableIsUnshadowed(m.fanChannels, id);
    }
  }

  /** In particular it passes when the temperatures are in range, channel ids are distinct and a supported
      aggregate backend is a real one. */
  lemma {:induction false} EmergencyCoolingReachable(m: Metrics)
    requires EmergencyRecommended(m) && !OutOfRange(m.cpuTemperature) && !OutOfRange(m.gpuTemperature)
    requires forall i, j :: 0 <= i < j < |m.fanChannels| ==> m.fanChannels[i].id != m.fanChannels[j].id
    requires m.fanControlSupported ==> RealBackend(m.fanControlBackend)
    ensures FanSpeedAllowed(100.0, m) || exists id :: FanChannelAllowed(id, 100.0, m)
  {
    EmergencyCoolingGates(m);
    if !m.fanControlSupported {
      var c :| c in m.fanChannels && Controllable(c);
      var i :| 0 <= i < |m.fanChannels| && m.fanChannels[i] == c;
      assert !Shadowed(m.fanChannels, i);
    }
  }

  /** The recommendation can be impossible to follow: a second sensor out of range closes every gate. */
  lemma {:induction false} EmergencyCoolingRefused(m: Metrics)
    requires m.cpuTemperature == Finite(100.0) && m.gpuTemperature == Finite(200.0)
    requires m.thermalSafetyAvailable && m.fanControlSupported && m.fanControlBackend == "linux-hwmon"
    ensures EmergencyRecommended(m) && FullSpeedRefused(m)
  {
  }

  /** And so does a monitor-only channel that is listed before the controllable one with its id. */
  lemma {:induction false} EmergencyCoolingShadowed(m: Metrics, a: FanChannel, b: FanChannel)
    requires m.cpuTemperature == Finite(100.0) && m.gpuTemperature == Finite(0.0) && m.thermalSafetyAvailable
    requires !m.fanControlSupported && m.fanChannels == [a, b] && Controllable(b) && a.id == b.id && !Usable(a)
    ensures EmergencyRecommended(m) && FullSpeedRefused(m)
  {
    assert m.fanChannels[1] == b && m.fanChannels[0] == a;
    assert b in m.fanChannels;
    assert Shadowed(m.fanChannels, 1);
    EmergencyCoolingGates(m);
  }
}
