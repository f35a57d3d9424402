/** From a fan command to the single PWM write on Linux. */
module FanControl {
  import opened Commands
  import opened HardwareHealth

  datatype Target = Target(id: string, pwmPath: string, supported: bool)

  /** The PWM duty written for a percentage. */
  function Duty(percent: real): int {
    var value := Truncate(percent * 255.0 / 100.0);
    if value < 0 then 0 else if value > 255 then 255 else value
  }

  /** Conversion to an integer, toward zero. */
  function Truncate(x: real): int {
    if x < 0.0 then -((-x).Floor) else x.Floor
  }

  /** Over the accepted percentages the duty is the floor of the exact value, within 0..255, rising with the
      percentage, and full only at 100%. */
  lemma {:induction false} DutyOfPercent(percent: real, other: real)
    requires ValidFanPercent(percent) && ValidFanPercent(other)
    ensures 0 <= Duty(percent) <= 255
    ensures Duty(percent) as real <= percent * 255.0 / 100.0 < Duty(percent) as real + 1.0
    ensures percent <= other ==> Duty(percent) <= Duty(other)
    ensures Duty(percent) == 255 <==> percent == 100.0
  {
  }

  /** The supported targets, in discovery order. */
  method SupportedTargets(all: seq<Target>) returns (targets: seq<Target>)
    ensures targets == Supported(all)
  {
    targets := [];
    for i := 0 to |all|
      invariant targets == Supported(all[..i])
    {
      assert all[..i + 1][..i] == all[..i];
      if all[i].supported {
        targets := targets + [all[i]];
      }
    }
    assert all[..|all|] == all;
  }

  function Supported(all: seq<Target>): (s: seq<Target>)
    ensures forall t :: t in s <==> t in all && t.supported
  {
    if all == [] then []
    else
      var n := |all| - 1;
      assert all == all[..n] + [all[n]];
      Supported(all[..n]) + if all[n].supported then [all[n]] else []
  }

  /** Where a supported target stands in discovery order: before it, none of the supported ones that come later. */
  lemma {:induction false} SupportedKeepsOrder(all: seq<Target>, i: nat) returns (k: nat)
    requires i < |Supported(all)|
    ensures k < |all| && all[k] == Supported(all)[i] && all[k].supported
    ensures forall j :: 0 <= j < k && all[j].supported ==> all[j] in Supported(all)[..i]
    decreases |all|
  {
    var n := |all| - 1;
    var before := Supported(all[..n]);
    if i < |before| {
      k := SupportedKeepsOrder(all[..n], i);
      assert Supported(all)[..i] == before[..i];
      assert forall j :: 0 <= j < k ==> all[..n][j] == all[j];
    } else {
      k := n;
      assert Supported(all)[..i] == before;
      forall j | 0 <= j < k && all[j].supported
        ensures all[j] in before
      {
        assert all[..n][j] == all[j];
      }
    }
  }

  /** The target that a channel command writes is the first supported one with its id, in discovery order. */
  lemma {:induction false} FirstSupported(all: seq<Target>, id: string, i: nat) returns (k: nat)
    requires i < |Supported(all)| && FirstTarget(Supported(all), id, i)
    ensures k < |all| && all[k] == Supported(all)[i] && all[k].id == id && all[k].supported
    ensures forall j :: 0 <= j < k && all[j].supported ==> all[j].id != id
  {
    k := SupportedKeepsOrder(all, i);
    forall j | 0 <= j < k && all[j].supported
      ensures all[j].id != id
    {
      var m :| 0 <= m < i && Supported(all)[..i][m] == all[j];
    }
  }

  ghost predicate FirstTarget(targets: seq<Target>, id: string, i: nat)
    requires i < |targets|
  {
    targets[i].id == id && forall j :: 0 <= j < i ==> targets[j].id != id
  }

  /** The first target with this id is supported and its file can be written. */
  ghost predicate Writable(targets: seq<Target>, id: string, writable: string -> bool) {
    exists i: nat :: i < |targets| && FirstTarget(targets, id, i) && targets[i].supported && writable(targets[i].pwmPath)
  }

  /** The aggregate control has exactly one target, and its file can be written. */
  ghost predicate OnlyTargetWritable(all: seq<Target>, writable: string -> bool) {
    |Supported(all)| == 1 && Supported(all)[0].pwmPath != "" && writable(Supported(all)[0].pwmPath)
  }

  datatype FanCommand = FanSpeed(percent: real) | FanChannelSpeed(target: string, percent: real)

  /** What the command handler reads on its way: each is a separate scan of the hardware, so they need not agree. */
  datatype Snapshot = Snapshot(panic: bool, listed: seq<FanChannel>, metrics: Metrics, targets: seq<Target>)

  ghost predicate ListedAsSupported(listed: seq<FanChannel>, id: string) {
    exists c :: c in listed && c.id == id && c.supported
  }

  /** A command is executed: panic mode is off, it passes its gate, and its target is present and can be written. */
  ghost predicate Executes(cmd: FanCommand, s: Snapshot, writable: string -> bool) {
    && !s.panic
    && match cmd
       case FanSpeed(percent) =>
         FanSpeedAllowed(percent, s.metrics) && ValidFanPercent(percent) && OnlyTargetWritable(s.targets, writable)
       case FanChannelSpeed(target, percent) =>
         && FanChannelAllowed(target, percent, s.metrics)
         && ListedAsSupported(s.listed, target) && Writable(Supported(s.targets), target, writable)
  }

  /** The PWM files of the machine; `writable` says which of them can be written. */
  class Hwmon {
    var duty: map<string, int>
    const writable: string -> bool

    constructor (duty: map<string, int>, writable: string -> bool)
      ensures this.duty == duty && this.writable == writable
    {
      this.duty, this.writable := duty, writable;
    }

    method WriteTarget(target: Target, percent: real) returns (ok: bool)
      modifies this
      ensures ok == writable(target.pwmPath)
      ensures duty == if ok then old(duty)[target.pwmPath := Duty(percent)] else old(duty)
    {
      ok := writable(target.pwmPath);
      if ok {
        duty := duty[target.pwmPath := Duty(percent)];
      }
    }

    /** Write the first target with the given id, if it is supported. */
    method SetChannel(targets: seq<Target>, id: string, percent: real) returns (ok: bool)
      modifies this
      ensures ok <==> ValidFanPercent(percent) && ValidFanChannelId(id) && Writable(targets, id, writable)
      ensures ok ==> exists i: nat :: i < |targets| && FirstTarget(targets, id, i)
                                      && duty == old(duty)[targets[i].pwmPath := Duty(percent)]
      ensures !ok ==> duty == old(duty)
    {
      if !ValidFanPercent(percent) || !ValidFanChannelId(id) {
        return false;
      }
      for i := 0 to |targets|
        invariant duty == old(duty) && forall j :: 0 <= j < i ==> targets[j].id != id
      {
        var target := targets[i];
        if target.id == id {
          assert FirstTarget(targets, id, i);
          if !target.supported {
            return false;
          }
          ok := WriteTarget(target, percent);
          return ok;
        }
      }
      return false;
    }

    /** The aggregate control: only when exactly one target is supported. */
    method SetFan(all: seq<Target>, percent: real) returns (ok: bool)
      modifies this
      ensures ok <==> ValidFanPercent(percent) && OnlyTargetWritable(all, writable)
      ensures ok ==> duty == old(duty)[Supported(all)[0].pwmPath := Duty(percent)]
      ensures !ok ==> duty == old(duty)
    {
      if !ValidFanPercent(percent) {
        return false;
      }
      var targets := SupportedTargets(all);
      if |targets| != 1 || targets[0].pwmPath == "" {
        return false;
      }
      ok := WriteTarget(targets[0], percent);
    }

    /** A refused command writes nothing. A command is executed exactly if panic mode is off, it passes its gate
        and its target can be written; it then writes exactly one PWM file, that of a supported target, with the
        duty of its percentage, which under a critical temperature is 255. */
    method Execute(cmd: FanCommand, s: Snapshot) returns (ok: bool)
      modifies this
      ensures !ok ==> duty == old(duty)
      ensures ok <==> Executes(cmd, s, writable)
      ensures ok ==> exists t :: t in s.targets && t.supported && (cmd.FanChannelSpeed? ==> t.id == cmd.target)
                                 && duty == old(duty)[t.pwmPath := Duty(cmd.percent)]
      ensures ok && CriticalThermalState(s.metrics) ==> Duty(cmd.percent) == 255
    {
      if s.panic {
        return false;
      }
      match cmd
      case FanSpeed(percent) =>
        if !FanSpeedAllowed(percent, s.metrics) {
          return false;
        }
        ok := SetFan(s.targets, percent);
        if ok {
          DutyOfPercent(percent, percent);
          assert Supported(s.targets)[0] in Supported(s.targets);
        }
      case FanChannelSpeed(target, percent) =>
        var present := IsListed(s.listed, target);
        if !present {
          return false;
        }
        var allowed := CheckFanChannel(target, percent, s.metrics);
        if !allowed {
          return false;
        }
        var targets := SupportedTargets(s.targets);
        ok := SetChannel(targets, target, percent);
        if ok {
          DutyOfPercent(percent, percent);
          ghost var i: nat :| i < |targets| && FirstTarget(targets, target, i)
                        && duty == old(duty)[targets[i].pwmPath := Duty(percent)];
          assert targets[i] in targets;
        }
    }
  }

  method IsListed(channels: seq<FanChannel>, id: string) returns (present: bool)
    ensures present <==> exists c :: c in channels && c.id == id && c.supported
  {
    for i := 0 to |channels|
      invariant forall c :: c in channels[..i] ==> !(c.id == id && c.supported)
    {
      if channels[i].id == id && channels[i].supported {
        return true;
      }
      assert channels[..i + 1] == channels[..i] + [channels[i]];
    }
    assert channels[..|channels|] == channels;
    return false;
  }

  // ----- emergency cooling, from the recommendation to the write

  /** The aggregate control is usable and its only target can be written. */
  ghost predicate AggregateReady(s: Snapshot, writable: string -> bool) {
    s.metrics.fanControlSupported && RealBackend(s.metrics.fanControlBackend) && OnlyTargetWritable(s.targets, writable)
  }

  /** The i-th channel is controllable, not hidden behind an unusable one, listed, and its target can be written. */
  ghost predicate ChannelReady(s: Snapshot, i: int, writable: string -> bool)
    requires 0 <= i < |s.metrics.fanChannels|
  {
    var channels := s.metrics.fanChannels;
    && Controllable(channels[i]) && !Shadowed(channels, i)
    && ListedAsSupported(s.listed, channels[i].id) && Writable(Supported(s.targets), channels[i].id, writable)
  }

  /** When emergency cooling is recommended, some full-speed command is executed, and so writes 255, if and only if panic
      mode is off, the other sensor is in range, and the aggregate control or some channel is ready; and no command for a
      lower speed is ever executed. */
  lemma {:induction false} EmergencyCoolingExecutes(s: Snapshot, writable: string -> bool)
    requires EmergencyRecommended(s.metrics)
    ensures (exists cmd: FanCommand :: cmd.percent == 100.0 && Executes(cmd, s, writable)) <==>
              && !s.panic && !OtherSensorOutOfRange(s.metrics)
              && (AggregateReady(s, writable)
                  || exists i :: 0 <= i < |s.metrics.fanChannels| && ChannelReady(s, i, writable))
    ensures forall cmd :: Executes(cmd, s, writable) ==> cmd.percent == 100.0 && Duty(cmd.percent) == 255
  {
    DutyOfPercent(100.0, 100.0);
    forall cmd | Executes(cmd, s, writable)
      ensures cmd.percent == 100.0 && Duty(cmd.percent) == 255
    {
      OnlyFullSpeed(cmd, s, writable);
    }
    if cmd :| Executes(cmd, s, writable) {
      ExecutedIsReady(cmd, s, writable);
    }
    if !s.panic && !OtherSensorOutOfRange(s.metrics)
       && (AggregateReady(s, writable)
           || exists i :: 0 <= i < |s.metrics.fanChannels| && ChannelReady(s, i, writable)) {
      ReadyIsExecuted(s, writable);
    }
  }

  lemma {:induction false} OnlyFullSpeed(cmd: FanCommand, s: Snapshot, writable: string -> bool)
    requires EmergencyRecommended(s.metrics) && Executes(cmd, s, writable)
    ensures cmd.percent == 100.0
  {
    EmergencyCoolingGates(s.metrics);
  }

  lemma {:induction false} ExecutedIsReady(cmd: FanCommand, s: Snapshot, writable: string -> bool)
    requires EmergencyRecommended(s.metrics) && Executes(cmd, s, writable)
    ensures !s.panic && !OtherSensorOutOfRange(s.metrics)
    ensures AggregateReady(s, writable) || exists i :: 0 <= i < |s.metrics.fanChannels| && ChannelReady(s, i, writable)
  {
    if cmd.FanChannelSpeed? {
      var i := UsableIsUnshadowed(s.metrics.fanChannels, cmd.target);
      assert ChannelReady(s, i, writable);
    }
  }

  lemma {:induction false} ReadyIsExecuted(s: Snapshot, writable: string -> bool)
    requires EmergencyRecommended(s.metrics) && !s.panic && !OtherSensorOutOfRange(s.metrics)
    requires AggregateReady(s, writable) || exists i :: 0 <= i < |s.metrics.fanChannels| && ChannelReady(s, i, writable)
    ensures exists cmd: FanCommand :: cmd.percent == 100.0 && Executes(cmd, s, writable)
  {
    if AggregateReady(s, writable) {
      assert Executes(FanSpeed(100.0), s, writable);
    } else {
      var i :| 0 <= i < |s.metrics.fanChannels| && ChannelReady(s, i, writable);
      UnshadowedIsUsable(s.metrics.fanChannels, i);
      assert Executes(FanChannelSpeed(s.metrics.fanChannels[i].id, 100.0), s, writable);
    }
  }
}
