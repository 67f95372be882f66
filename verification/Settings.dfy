/** BOX settings: their limits, how the host's capacity moves the limits, and the
    execution policy they become. */
module Settings {
  import opened Wrappers

  const U32Max: nat := 0xFFFF_FFFF
  const U64Max: nat := 0xFFFF_FFFF_FFFF_FFFF

  datatype Limited = Limited(current: nat, max: nat)

  datatype Allowed = Allowed(current: bool, max: bool)

  datatype BoxSettings = BoxSettings(cpuCores: Limited, memoryMb: Limited, fsSizeMib: Limited, maxProcesses: Limited,
                                     networkEnabled: Allowed)

  const DefaultSettings := BoxSettings(Limited(1, 1), Limited(128, 128), Limited(128, 128), Limited(256, 256),
                                       Allowed(false, false))

  datatype Policy = Policy(cpuCores: nat, memoryMb: nat, maxProcesses: nat, networkEnabled: bool,
                           timeoutMs: Option<nat>)

  /** `ExecutionPolicy::validate`. */
  predicate ValidPolicy(p: Policy) {
    p.cpuCores != 0 && p.memoryMb >= 128 && p.maxProcesses != 0 && p.timeoutMs != Some(0)
  }

  datatype Config = Config(policy: Policy, diskSizeMib: nat, secure: bool)

  predicate ValidConfig(c: Config) {
    ValidPolicy(c.policy) && c.diskSizeMib >= 64
  }

  // ---- caps ----

  datatype Caps = Caps(cpuCores: nat, memoryMb: nat, fsSizeMib: nat, maxProcesses: nat, networkEnabled: bool)

  /** What the operating system reports, where it reports anything. */
  datatype Host = Host(parallelism: Option<nat>, memoryMib: Option<nat>, processLimit: Option<nat>,
                       freeMib: Option<nat>)

  function Max(a: nat, b: nat): nat { if a < b then b else a }

  function Saturated(n: nat, max: nat): nat { if n > max then max else n }

  function OrElse(o: Option<nat>, default: nat): nat { if o.Some? then o.value else default }

  /** `u32::try_from`. */
  function TryU32(o: Option<nat>): Option<nat> { if o.Some? && o.value <= U32Max then o else None }

  function DetectCaps(c: Config, host: Host, actualFs: nat): Caps {
    Caps(
      Max(if host.parallelism.Some? then host.parallelism.value % (U32Max + 1)
        else Max(c.policy.cpuCores, 1), c.policy.cpuCores),
      Max(OrElse(TryU32(host.memoryMib), Max(c.policy.memoryMb, 4096)), c.policy.memoryMb),
      Max(Max(if host.freeMib.Some? then Saturated(host.freeMib.value + actualFs, U64Max)
              else Max(Saturated(c.diskSizeMib * 8, U64Max), actualFs),
              c.diskSizeMib), actualFs),
      Max(OrElse(TryU32(host.processLimit), Max(c.policy.maxProcesses, 4096)), c.policy.maxProcesses),
      !c.secure)
  }

  /** Caps under which no limit falls below its minimum. */
  predicate Sufficient(caps: Caps) {
    caps.cpuCores >= 1 && caps.memoryMb >= 128 && caps.fsSizeMib >= 64 && caps.maxProcesses >= 1
  }

  /** Whatever the host reports, the caps allow what the defaults ask for. */
  lemma {:induction false} CapsCoverDefaults(c: Config, host: Host, actualFs: nat)
    requires ValidConfig(c)
    ensures var caps := DetectCaps(c, host, actualFs);
            && Sufficient(caps)
            && caps.cpuCores >= c.policy.cpuCores && caps.memoryMb >= c.policy.memoryMb
            && caps.maxProcesses >= c.policy.maxProcesses && caps.fsSizeMib >= Max(c.diskSizeMib, actualFs)
  {}

  /** What the host reports is the cap, unless the defaults or the disk ask for more; where
      it reports nothing, or more than 32 bits hold, a multiple of the defaults is. */
  lemma {:induction false} CapsAreReported(c: Config, host: Host, actualFs: nat)
    requires ValidConfig(c)
    ensures var caps := DetectCaps(c, host, actualFs);
            && (host.parallelism.Some? && c.policy.cpuCores <= host.parallelism.value <= U32Max ==>
                  caps.cpuCores == host.parallelism.value)
            && (host.parallelism.None? ==> caps.cpuCores == c.policy.cpuCores)
            && (host.memoryMib.Some? && c.policy.memoryMb <= host.memoryMib.value <= U32Max ==>
                  caps.memoryMb == host.memoryMib.value)
            && (host.memoryMib.None? || host.memoryMib.value > U32Max ==> caps.memoryMb == Max(c.policy.memoryMb, 4096))
            && (host.processLimit.Some? && c.policy.maxProcesses <= host.processLimit.value <= U32Max ==>
                  caps.maxProcesses == host.processLimit.value)
            && (host.processLimit.None? || host.processLimit.value > U32Max ==>
                  caps.maxProcesses == Max(c.policy.maxProcesses, 4096))
            && (host.freeMib.Some? && c.diskSizeMib <= host.freeMib.value + actualFs <= U64Max ==>
                  caps.fsSizeMib == host.freeMib.value + actualFs)
            && (host.freeMib.None? && 8 * c.diskSizeMib <= U64Max ==>
                  caps.fsSizeMib == Max(8 * c.diskSizeMib, actualFs))
            && (caps.networkEnabled <==> !c.secure)
  {}

  // ---- normalization ----

  /** `Ord::clamp`, which panics when the bounds cross. */
  function Clamp(n: nat, min: nat, max: nat): (r: nat)
    requires min <= max
    ensures min <= r <= max && (min <= n <= max ==> r == n)
  {
    if n < min then min else if n > max then max else n
  }

  function NormalizeLimit(l: Limited, detected: nat, min: nat): Limited
    requires min <= detected
  {
    var max := Max(detected, l.current);
    Limited(Clamp(l.current, min, max), max)
  }

  function NormalizeSettings(s: BoxSettings, actualFs: nat, caps: Caps): BoxSettings
    requires Sufficient(caps)
  {
    var fsMax := Max(caps.fsSizeMib, actualFs);
    BoxSettings(
      NormalizeLimit(s.cpuCores, caps.cpuCores, 1),
      NormalizeLimit(s.memoryMb, caps.memoryMb, 128),
      Limited(Clamp(actualFs, 64, fsMax), fsMax),
      NormalizeLimit(s.maxProcesses, caps.maxProcesses, 1),
      Allowed(s.networkEnabled.current && caps.networkEnabled, caps.networkEnabled))
  }

  predicate Within(l: Limited, min: nat) { min <= l.current <= l.max }

  /** Settings that are in their limits, on a host in this isolation mode. */
  predicate InLimits(s: BoxSettings, secure: bool) {
    && Within(s.cpuCores, 1) && Within(s.memoryMb, 128) && Within(s.fsSizeMib, 64) && Within(s.maxProcesses, 1)
    && (s.networkEnabled.current ==> s.networkEnabled.max) && (s.networkEnabled.max ==> !secure)
  }

  /** Each limit is the cap, or the current value where that is already larger; a value below
      its minimum is raised to it, and the disk size is the disk's own. */
  lemma {:induction false} LimitsReported(s: BoxSettings, actualFs: nat, caps: Caps)
    requires Sufficient(caps)
    ensures var s' := NormalizeSettings(s, actualFs, caps);
            && s'.cpuCores.max == Max(caps.cpuCores, s.cpuCores.current)
            && s'.memoryMb.max == Max(caps.memoryMb, s.memoryMb.current)
            && s'.maxProcesses.max == Max(caps.maxProcesses, s.maxProcesses.current)
            && s'.fsSizeMib.max == Max(caps.fsSizeMib, actualFs)
            && s'.networkEnabled.max == caps.networkEnabled
            && (s'.networkEnabled.current <==> s.networkEnabled.current && caps.networkEnabled)
            && s'.cpuCores.current == Max(1, s.cpuCores.current)
            && s'.memoryMb.current == Max(128, s.memoryMb.current)
            && s'.maxProcesses.current == Max(1, s.maxProcesses.current)
            && s'.fsSizeMib.current == Max(64, actualFs)
  {}

  /** A record's settings as they are read on some host. */
  function Reported(s: BoxSettings, actualFs: nat, c: Config, host: Host): BoxSettings
    requires ValidConfig(c)
  {
    CapsCoverDefaults(c, host, actualFs);
    NormalizeSettings(s, actualFs, DetectCaps(c, host, actualFs))
  }

  /** The values a user chose, apart from the disk size, which the disk itself holds. */
  datatype Choice = Choice(cpuCores: nat, memoryMb: nat, maxProcesses: nat, networkEnabled: bool)

  function Chosen(s: BoxSettings): Choice {
    Choice(s.cpuCores.current, s.memoryMb.current, s.maxProcesses.current, s.networkEnabled.current)
  }

  lemma {:induction false} NormalizedInLimits(s: BoxSettings, actualFs: nat, c: Config, host: Host)
    requires ValidConfig(c)
    ensures Sufficient(DetectCaps(c, host, actualFs))
    ensures InLimits(NormalizeSettings(s, actualFs, DetectCaps(c, host, actualFs)), c.secure)
  {
    CapsCoverDefaults(c, host, actualFs);
  }

  lemma {:induction false} NormalizeIdempotent(s: BoxSettings, actualFs: nat, caps: Caps)
    requires Sufficient(caps)
    ensures NormalizeSettings(NormalizeSettings(s, actualFs, caps), actualFs, caps) ==
              NormalizeSettings(s, actualFs, caps)
  {}

  /** Settings once in limits are read back unchanged however the host's capacity
      moves; the disk size is the disk's own. */
  lemma {:induction false} ChoicesSurvive(s: BoxSettings, actualFs: nat, c: Config, host: Host)
    requires ValidConfig(c) && InLimits(s, c.secure)
    ensures Sufficient(DetectCaps(c, host, actualFs))
    ensures var s' := NormalizeSettings(s, actualFs, DetectCaps(c, host, actualFs));
            Chosen(s') == Chosen(s) && (actualFs >= 64 ==> s'.fsSizeMib.current == actualFs)
  {
    CapsCoverDefaults(c, host, actualFs);
  }

  /** `box_policy`. */
  function BoxPolicy(s: BoxSettings, timeoutMs: Option<nat>): Policy {
    Policy(s.cpuCores.current, s.memoryMb.current, s.maxProcesses.current, s.networkEnabled.current, timeoutMs)
  }

  /** `validate_numeric_setting`. */
  predicate AcceptsValue(l: Limited, value: nat, min: nat) { min <= value <= l.max }

  /** A policy made from settings in limits is valid and keeps a secure host offline. */
  predicate Launchable(p: Policy, secure: bool) { ValidPolicy(p) && (secure ==> !p.networkEnabled) }

  lemma {:induction false} PolicyLaunchable(s: BoxSettings, c: Config)
    requires ValidConfig(c) && InLimits(s, c.secure)
    ensures Launchable(BoxPolicy(s, c.policy.timeoutMs), c.secure)
  {}
}
