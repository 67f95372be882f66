/** The single changes operations on a BOX are made of, and what each of them keeps. */
module BoxSteps {
  import opened Wrappers
  import opened Settings
  import opened Registry
  import opened Boxes

  /** A record read back: only limits and the reported disk size may differ. */
  ghost predicate Refreshed(a: BoxRecord, a': BoxRecord, secure: bool) {
    && a' == a.(settings := a'.settings)
    && InLimits(a'.settings, secure)
    && (InLimits(a.settings, secure) ==> Chosen(a'.settings) == Chosen(a.settings))
  }

  /** A record after start-up: it is not running, and still names the same sandbox. */
  ghost predicate Reconciled(a: BoxRecord, a': BoxRecord, secure: bool) {
    && a'.status == (if a.status == Running then Failed else a.status) && a'.sandbox == a.sandbox
    && InLimits(a'.settings, secure)
    && (InLimits(a.settings, secure) ==> Chosen(a'.settings) == Chosen(a.settings))
  }

  lemma RefreshedIsReconciled(a: BoxRecord, a': BoxRecord, secure: bool)
    requires Refreshed(a, a'.(status := a.status), secure)
    requires a'.status == if a.status == Running then Failed else a.status
    ensures Reconciled(a, a', secure)
  {}

  lemma NoneRunning(w: World, secure: bool)
    requires w.active == map[] && forall b :: b in w.records ==> w.records[b].status != Running
    requires Base(w, secure)
    ensures Invariant(w, secure)
  {}

  /** What an operation may rely on when it begins. */
  lemma InvariantParts(w: World, secure: bool, b: Id)
    requires Invariant(w, secure)
    ensures Base(w, secure) && InvariantBut(w, secure, b)
    ensures b in w.records ==> InLimits(w.records[b].settings, secure) && b < w.issued
    ensures SizeOf(w, b) >= 64
    ensures b in w.active <==> IsRunning(w, b)
    ensures b in w.active ==> w.records[b].sandbox == Some(w.active[b]) && Attached(w.sessions, b)
    ensures b in w.active ==> w.active[b] in w.sessions
    ensures b in w.kept ==> BigEnough(w.kept[b])
  {
    assert Healthy(w, b) && Proper(w, secure, b);
  }

  /** The record alone changes, running or not as before. */
  lemma {:induction false} RewriteKeeps(w: World, w': World, secure: bool, b: Id, a: BoxRecord)
    requires InvariantBut(w, secure, b) && b in w.records && w' == w.(records := w.records[b := a])
    requires a.status == w.records[b].status && a.sandbox == w.records[b].sandbox && InLimits(a.settings, secure)
    ensures Turn(w, w', b) && (Chosen(a.settings) == Chosen(w.records[b].settings) ==> Step(w, w', b))
    ensures InvariantBut(w', secure, b) && (Invariant(w, secure) ==> Invariant(w', secure))
    ensures Orphaned(w', b) <==> Orphaned(w, b)
  {
    assert Proper(w, secure, b);
    assert w'.records - {b} == w.records - {b};
    assert Healthy(w, b) ==> Healthy(w', b);
    OthersHealthy(w, w', secure, b);
  }

  lemma RefreshKeeps(w: World, w': World, secure: bool, b: Id, a: BoxRecord)
    requires Base(w, secure) && b in w.records && w' == w.(records := w.records[b := a])
    requires Refreshed(w.records[b], a, secure)
    ensures Step(w, w', b) && Base(w', secure) && (Invariant(w, secure) ==> Invariant(w', secure))
    ensures Orphaned(w', b) <==> Orphaned(w, b)
  {
    assert Proper(w, secure, b);
    assert w'.records - {b} == w.records - {b};
    forall o: Id ensures Proper(w', secure, o) && (Healthy(w, o) ==> Healthy(w', o)) { assert Proper(w, secure, o); }
    hide Proper, Healthy;
  }

  /** A BOX that is not running gives up its place in the active map. */
  lemma {:induction false} ResignKeeps(w: World, w': World, secure: bool, b: Id, a: BoxRecord)
    requires InvariantBut(w, secure, b) && b in w.records
    requires w' == w.(records := w.records[b := a], active := w.active - {b})
    requires a.status != Running && InLimits(a.settings, secure)
    requires Chosen(a.settings) == Chosen(w.records[b].settings)
    ensures Step(w, w', b) && Invariant(w', secure)
  {
    assert Proper(w, secure, b);
    assert w'.records - {b} == w.records - {b};
    assert w'.active - {b} == w.active - {b};
    OthersHealthy(w, w', secure, b);
  }

  lemma {:induction false} LaunchKeeps(w: World, w': World, secure: bool, b: Id, id: Id, a: BoxRecord)
    requires Invariant(w, secure) && b in w.records && !Attached(w.sessions, b) && id !in w.sessions
    requires a.status == Running && a.sandbox == Some(id) && InLimits(a.settings, secure)
    requires Chosen(a.settings) == Chosen(w.records[b].settings) && w.issued <= w'.issued
    requires w' == w.(records := w.records[b := a], active := w.active[b := id],
                      sessions := w.sessions[id := Session(b, id)], issued := w'.issued)
    ensures Step(w, w', b) && Invariant(w', secure)
  {
    assert Proper(w, secure, b);
    assert w'.records - {b} == w.records - {b};
    assert w'.active - {b} == w.active - {b};
    OthersHealthy(w, w', secure, b);
  }

  lemma {:induction false} DestroyKeeps(w: World, w': World, secure: bool, b: Id)
    requires Invariant(w, secure) && b in w.active && w' == w.(sessions := w.sessions - {w.active[b]})
    ensures Step(w, w', b) && InvariantBut(w', secure, b)
  {
    assert Healthy(w, b) && Proper(w, secure, b);
    OthersHealthy(w, w', secure, b);
  }

  lemma {:induction false} DestroyDetaches(w: World, s: Sessions, issued: nat, poolSize: nat, secure: bool, b: Id)
    requires Invariant(w, secure) && b in w.active && Sound(s, issued, poolSize) && w.sessions == s.active
    ensures w.active[b] in s.active && w.active[b] !in s.history && !Attached(s.active - {w.active[b]}, b)
  {
    assert Healthy(w, b);
  }

  lemma {:induction false} DrawKeeps(w: World, w': World, secure: bool, b: Id)
    requires Invariant(w, secure) && w.issued <= w'.issued && w' == w.(issued := w'.issued)
    ensures Step(w, w', b) && Invariant(w', secure)
  {
    forall o: Id ensures Healthy(w', o) && Proper(w', secure, o) { assert Healthy(w, o) && Proper(w, secure, o); }
  }

  /** Disk or checkpoints of one BOX change. */
  lemma {:induction false} StorageKeeps(w: World, w': World, secure: bool, b: Id)
    requires Invariant(w, secure) && w' == w.(disks := w'.disks, kept := w'.kept)
    requires w'.disks - {b} == w.disks - {b} && w'.kept - {b} == w.kept - {b}
    requires (b in w'.disks ==> w'.disks[b] >= 64) && (b in w'.kept ==> b < w.issued && BigEnough(w'.kept[b]))
    ensures Invariant(w', secure) && Turn(w, w', b) && (SizeOf(w', b) == SizeOf(w, b) ==> Step(w, w', b))
    ensures Orphaned(w', b) <==> Orphaned(w, b)
  {
    forall o: Id ensures Healthy(w', o) && Proper(w', secure, o) {
      assert Healthy(w, o) && Proper(w, secure, o);
      if o != b {
        assert o in w'.disks <==> o in w'.disks - {b};
        assert o in w.disks <==> o in w.disks - {b};
        assert o in w'.kept <==> o in w'.kept - {b};
        assert o in w.kept <==> o in w.kept - {b};
      }
    }
    hide Healthy, Proper, BigEnough;
  }

  lemma {:induction false} CreateKeeps(w: World, w': World, secure: bool, b: Id, a: BoxRecord)
    requires Invariant(w, secure) && b == w.issued && a.status == Created && InLimits(a.settings, secure)
    requires w' == w.(records := w.records[b := a], disks := w.disks[b := w.defaultMib], issued := b + 1)
    ensures Step(w, w', b) && Invariant(w', secure) && b !in w.records && !Orphaned(w', b)
  {
    assert w'.records - {b} == w.records - {b};
    assert w'.disks - {b} == w.disks - {b};
    assert Healthy(w, b) && Proper(w, secure, b);
    OthersHealthy(w, w', secure, b);
  }

  /** Removing, finished or cut short before the record is dropped. */
  lemma {:induction false} RemoveKeeps(w: World, w': World, secure: bool, b: Id, a: BoxRecord)
    requires Invariant(w, secure) && b in w.records && !IsRunning(w, b) && a.status == Removing
    requires InLimits(a.settings, secure)
    requires w' == w.(records := w'.records, active := w'.active, disks := w'.disks, kept := w'.kept)
    requires w'.disks == w.disks || w'.disks == w.disks - {b}
    requires w'.kept == w.kept || w'.kept == w.kept - {b}
    requires w'.active == w.active || w'.active == w.active - {b}
    requires w'.records == w.records[b := a] || w'.records == w.records - {b}
    ensures Turn(w, w', b) && Invariant(w', secure) && (Orphaned(w', b) ==> Orphaned(w, b))
  {
    assert Healthy(w, b) && Proper(w, secure, b);
    assert w'.records - {b} == w.records - {b};
    assert w'.active - {b} == w.active - {b};
    assert w'.disks - {b} == w.disks - {b};
    assert w'.kept - {b} == w.kept - {b};
    OthersHealthy(w, w', secure, b);
  }

  lemma {:induction false} EmptyMeansStopped(w: World, secure: bool)
    requires Invariant(w, secure) && w.active.Keys == {}
    ensures w.active == map[] && forall b :: b in w.records ==> w.records[b].status != Running
  {
    forall b | b in w.records ensures w.records[b].status != Running { assert Healthy(w, b); }
  }

  lemma StepKeys(w: World, w': World, b: Id)
    requires Step(w, w', b) && b in w.records
    ensures w'.records.Keys == w.records.Keys
  {
    forall o ensures o in w.records <==> o in w'.records { if o != b { Elsewhere(w, w', b, o); } }
  }

  // ---- settings ----

  datatype SettingValue =
    | CpuCores(n: nat)
    | MemoryMb(n: nat)
    | FsSizeMib(n: nat)
    | MaxProcesses(n: nat)
    | NetworkEnabled(on: bool)

  function KnobOf(value: SettingValue): Knob {
    match value
    case CpuCores(_) => Cpu
    case MemoryMb(_) => Memory
    case FsSizeMib(_) => Disk
    case MaxProcesses(_) => Processes
    case NetworkEnabled(_) => Net
  }

  /** The settings read as the value that was asked for. */
  predicate Reads(s: BoxSettings, value: SettingValue) {
    match value
    case CpuCores(n) => s.cpuCores.current == n
    case MemoryMb(n) => s.memoryMb.current == n
    case FsSizeMib(n) => s.fsSizeMib.current == n
    case MaxProcesses(n) => s.maxProcesses.current == n
    case NetworkEnabled(on) => s.networkEnabled.current == on
  }

  function With(c: Choice, value: SettingValue): Choice {
    match value
    case CpuCores(n) => c.(cpuCores := n)
    case MemoryMb(n) => c.(memoryMb := n)
    case MaxProcesses(n) => c.(maxProcesses := n)
    case NetworkEnabled(on) => c.(networkEnabled := on)
    case FsSizeMib(_) => c
  }

  function Current(l: Limited, n: nat): Limited { l.(current := n) }

  /** The settings with a value a user asks for, when it is in its limits. */
  function Changed(s: BoxSettings, value: SettingValue): Option<BoxSettings> {
    match value
    case CpuCores(n) => if AcceptsValue(s.cpuCores, n, 1) then Some(s.(cpuCores := Current(s.cpuCores, n))) else None
    case MemoryMb(n) => if AcceptsValue(s.memoryMb, n, 128) then Some(s.(memoryMb := Current(s.memoryMb, n))) else None
    case FsSizeMib(n) =>
      if AcceptsValue(s.fsSizeMib, n, 64) then Some(s.(fsSizeMib := Current(s.fsSizeMib, n))) else None
    case MaxProcesses(n) =>
      if AcceptsValue(s.maxProcesses, n, 1) then Some(s.(maxProcesses := Current(s.maxProcesses, n))) else None
    case NetworkEnabled(on) =>
      if on && !s.networkEnabled.max then None else Some(s.(networkEnabled := s.networkEnabled.(current := on)))
  }

  /** A value is in the limits the host's capacity gives, or not above the current one. */
  predicate Acceptable(s: BoxSettings, size: nat, caps: Caps, value: SettingValue) {
    match value
    case CpuCores(n) => 1 <= n <= Max(caps.cpuCores, s.cpuCores.current)
    case MemoryMb(n) => 128 <= n <= Max(caps.memoryMb, s.memoryMb.current)
    case FsSizeMib(n) => 64 <= n <= Max(caps.fsSizeMib, size)
    case MaxProcesses(n) => 1 <= n <= Max(caps.maxProcesses, s.maxProcesses.current)
    case NetworkEnabled(on) => on ==> caps.networkEnabled
  }

  lemma {:induction false} ChangedIffAcceptable(s: BoxSettings, size: nat, caps: Caps, value: SettingValue)
    requires Sufficient(caps)
    ensures Changed(NormalizeSettings(s, size, caps), value).Some? <==> Acceptable(s, size, caps, value)
  {
    LimitsReported(s, size, caps);
    hide NormalizeSettings;
  }

  // ---- resizing a disk ----

  /** Which steps of a resize succeed: preparing the workspace, the check before, `resize2fs`,
      setting the length of the disk's file, and the check after. */
  datatype Tools = Tools(prepared: bool, checked: bool, resized: bool, sized: bool, rechecked: bool)

  /** The length of the file comes to be set: a larger one before `resize2fs`, a smaller
      one after it. */
  predicate LengthSet(t: Tools, from: nat, to: nat) {
    to != from && t.prepared && t.checked && t.sized && (to > from || t.resized)
  }

  predicate Resizes(t: Tools, from: nat, to: nat) {
    t.prepared && (to == from || (t.checked && t.resized && t.sized && (to > from || t.rechecked)))
  }

  /** The only failures that leave the new size: `resize2fs` on a disk made larger, the
      last check on one made smaller. */
  lemma {:induction false} HalfwayIff(t: Tools, from: nat, to: nat)
    ensures LengthSet(t, from, to) && !Resizes(t, from, to) <==>
              && t.prepared && t.checked && t.sized
              && ((to > from && !t.resized) || (to < from && t.resized && !t.rechecked))
    ensures Resizes(t, from, to) && to != from ==> LengthSet(t, from, to)
  {}

  // ---- what an operation finds outside ----

  /** Which steps of clearing a BOX away succeed. */
  datatype Clearing = Clearing(disk: bool, list: bool, record: bool)

  /** Everything one operation asks of the world: what the host reports, which BOXes have a
      sandbox that answers, which have one that shuts down, whose errors speak of an unknown
      sandbox, and which steps of a launch, a resize, a checkpoint and a removal succeed. */
  datatype Env = Env(host: Host, answers: set<Id>, shuts: set<Id>, unknowns: set<Id>, boot: Boot, tools: Tools,
                     captured: bool, prepared: bool, copied: bool, clearing: Clearing)

  /** A destroy of the BOX's sandbox succeeds or finds nothing to destroy. */
  predicate Stops(env: Env, b: Id) { b in env.shuts || b in env.unknowns }

  /** The status a BOX is found in when it is read: a silent sandbox counts as failed. */
  function StatusRead(w: World, env: Env, b: Id): Status
    requires b in w.records
  {
    if w.records[b].status == Running && b !in env.answers then Failed else w.records[b].status
  }

  /** The status a BOX is left in when it is halted. */
  function StatusHalted(w: World, env: Env, b: Id): Status
    requires b in w.records
  {
    if w.records[b].status != Running then w.records[b].status else if Stops(env, b) then Stopped else Failed
  }

  /** The status keeps to itself. */
  ghost predicate StatusKept(w: World, w': World, b: Id) {
    b in w.records ==> b in w'.records && w'.records[b].status == w.records[b].status
  }

  /** An accepted value leaves the settings in limits. */
  lemma {:induction false} ChangedInLimits(s: BoxSettings, value: SettingValue, secure: bool)
    requires InLimits(s, secure) && Changed(s, value).Some?
    ensures InLimits(Changed(s, value).value, secure) && Chosen(Changed(s, value).value) == With(Chosen(s), value)
    ensures value.FsSizeMib? ==> Changed(s, value).value.fsSizeMib.current == value.n >= 64
  {}

  /** A disk may always be made smaller, down to the least size, whatever the host reports. */
  lemma {:induction false} SmallerAccepted(s: BoxSettings, size: nat, caps: Caps, n: nat)
    requires 64 <= n <= size
    ensures Acceptable(s, size, caps, FsSizeMib(n))
  {}

  /** Changing one setting moves no other knob; failing to moves at most the disk. */
  lemma {:induction false} SettingKeepsKnobs(w: World, w': World, b: Id, value: SettingValue, accepted: bool)
    requires b in w.records && b in w'.records
    requires Chosen(w'.records[b].settings)
          == if accepted then With(Chosen(w.records[b].settings), value) else Chosen(w.records[b].settings)
    requires !value.FsSizeMib? ==> SizeOf(w', b) == SizeOf(w, b)
    ensures forall k: Knob :: k != KnobOf(value) ==> KnobKept(w, w', b, k)
    ensures !accepted && SizeOf(w', b) == SizeOf(w, b) ==> forall k: Knob :: KnobKept(w, w', b, k)
  {}
}
