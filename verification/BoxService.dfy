/** `LocalBoxService`: the operations on BOXes, each a sequence of writes to records,
    active map and runtime, with arbitrary runtime failures in between. */
module BoxService {
  import opened Wrappers
  import opened Settings
  import opened Registry
  import opened Boxes
  import opened BoxSteps

  datatype Mode = Rollback | Replace

  ghost predicate AllLaunchable(policies: seq<Policy>, secure: bool) {
    forall i :: 0 <= i < |policies| ==> Launchable(policies[i], secure)
  }

  lemma OneMoreLaunchable(policies: seq<Policy>, p: Policy, secure: bool)
    requires AllLaunchable(policies, secure) && Launchable(p, secure)
    ensures AllLaunchable(policies + [p], secure)
  {}

  function PositionOf(list: seq<Checkpoint>, id: Id): (p: nat)
    ensures p <= |list| && (p < |list| ==> list[p].id == id)
    ensures forall i :: 0 <= i < p ==> list[i].id != id
  {
    if list == [] || list[0].id == id then 0 else 1 + PositionOf(list[1..], id)
  }

  function Without(list: seq<Checkpoint>, id: Id): (rest: seq<Checkpoint>)
    ensures forall c :: c in rest <==> c in list && c.id != id
  {
    if list == [] then []
    else (if list[0].id == id then [] else [list[0]]) + Without(list[1..], id)
  }

  class LocalBoxService {
    const runtime: AgentSandboxService
    const config: Config
    var records: map<Id, BoxRecord>
    var active: map<Id, Id>
    var disks: map<Id, nat>
    var kept: map<Id, seq<Checkpoint>>

    ghost function View(): World reads this, runtime, runtime.registry {
      World(records, active, disks, kept, runtime.registry.active, runtime.issued, config.diskSizeMib)
    }

    /** Configuration and runtime, and every policy ever sent to the runtime. */
    ghost predicate Ready() reads this, runtime, runtime.registry {
      && ValidConfig(config) && runtime.secure == config.secure
      && runtime.Valid() && AllLaunchable(runtime.requested, config.secure)
    }

    /** What holds in the middle of an operation on one BOX. */
    ghost predicate ValidBut(b: Id) reads this, runtime, runtime.registry {
      Ready() && InvariantBut(View(), config.secure, b)
    }

    ghost predicate Valid() reads this, runtime, runtime.registry {
      Ready() && Invariant(View(), config.secure)
    }

    /** Start-up over what an earlier daemon left behind: no BOX is running, and the
        sandbox a record names may be stale. */
    constructor (runtime: AgentSandboxService, config: Config, records: map<Id, BoxRecord>, disks: map<Id, nat>,
                 kept: map<Id, seq<Checkpoint>>, host: Host)
      requires ValidConfig(config) && runtime.secure == config.secure && runtime.Valid() && runtime.requested == []
      requires forall b :: b in records ==> b < runtime.issued
      requires forall b :: b in disks ==> disks[b] >= 64
      requires forall b :: b in kept ==> b < runtime.issued && BigEnough(kept[b])
      requires forall id :: id in runtime.registry.active ==> runtime.registry.active[id].workspace < runtime.issued
      ensures Valid() && this.runtime == runtime && this.config == config && this.disks == disks && this.kept == kept
      ensures active == map[] && this.records.Keys == records.Keys
      ensures forall b :: b in records ==> Reconciled(records[b], this.records[b], config.secure)
    {
      this.runtime, this.config, this.records, this.disks, this.kept := runtime, config, records, disks, kept;
      active := map[];
      new;
      hide Sound, BigEnough;
      ReconcileAfterRestart(host);
      NoneRunning(View(), config.secure);
    }

    method ReconcileAfterRestart(host: Host)
      requires ValidConfig(config)
      modifies this`records
      ensures records.Keys == old(records).Keys
      ensures forall b :: b in records ==> Reconciled(old(records)[b], records[b], config.secure)
    {
      hide Reconciled;
      var rest := records.Keys;
      while rest != {}
        invariant rest <= records.Keys == old(records).Keys
        invariant forall b :: b in rest ==> records[b] == old(records)[b]
        invariant forall b :: b in records && b !in rest ==> Reconciled(old(records)[b], records[b], config.secure)
        decreases rest
      {
        var b :| b in rest;
        var a := HydrateRecord(b, records[b], host);
        if a.status == Running { a := a.(status := Failed); }
        RefreshedIsReconciled(old(records)[b], a, config.secure);
        records := records[b := a];
        rest := rest - {b};
      }
    }

    /** The size of a BOX's disk; of a missing one, the size it would be made with. */
    function DiskSize(b: Id): nat reads this { if b in disks then disks[b] else config.diskSizeMib }

    function Checkpoints(b: Id): seq<Checkpoint> reads this { if b in kept then kept[b] else [] }

    /** `hydrate_record`: the record with its limits moved to the host's capacity. */
    method HydrateRecord(b: Id, record: BoxRecord, host: Host) returns (a: BoxRecord)
      requires ValidConfig(config)
      ensures a == record.(settings := Reported(record.settings, DiskSize(b), config, host))
      ensures Refreshed(record, a, config.secure)
      ensures DiskSize(b) >= 64 ==> a.settings.fsSizeMib.current == DiskSize(b)
    {
      var actual := DiskSize(b);
      NormalizedInLimits(record.settings, actual, config, host);
      a := record.(settings := NormalizeSettings(record.settings, actual, DetectCaps(config, host, actual)));
      if InLimits(record.settings, config.secure) { ChoicesSurvive(record.settings, actual, config, host); }
    }

    method ReadBox(b: Id, host: Host) returns (r: Result<BoxRecord, Error>)
      requires Valid()
      modifies this`records
      ensures Valid() && Step(old(View()), View(), b)
      ensures Orphaned(View(), b) <==> old(Orphaned(View(), b))
      ensures b !in old(records) ==> r == Err(NotFound) && records == old(records)
      ensures b in old(records) ==>
                r.Ok? && records == old(records)[b := r.value] && InLimits(r.value.settings, config.secure)
      ensures b in old(records) ==> Refreshed(old(records)[b], r.value, config.secure)
      ensures b in old(records) ==>
                r.value.settings == Reported(old(records)[b].settings, DiskSize(b), config, host)
      ensures b in old(records) ==> r.value.settings.fsSizeMib.current == DiskSize(b)
    {
      ghost var w := View();
      NoStep(w, b);
      InvariantParts(w, config.secure, b);
      hide Invariant, InvariantBut, Base, Step, Sound, AllLaunchable, ValidConfig, InLimits;
      if b !in records { return Err(NotFound); }
      var a := HydrateRecord(b, records[b], host);
      records := records[b := a];
      RefreshKeeps(w, View(), config.secure, b, a);
      r := Ok(a);
    }

    /** Writes a record that is no longer running, and takes the BOX off the active map. */
    method Resign(b: Id, record: BoxRecord)
      requires ValidBut(b) && b in records && record.status != Running && InLimits(record.settings, config.secure)
      requires Chosen(record.settings) == Chosen(records[b].settings)
      modifies this`records, this`active
      ensures Valid() && Step(old(View()), View(), b)
      ensures records == old(records)[b := record] && active == old(active) - {b}
    {
      ghost var w := View();
      hide Invariant, InvariantBut, Step, InLimits, Sound, AllLaunchable, ValidConfig;
      active := active - {b};
      records := records[b := record];
      ResignKeeps(w, View(), config.secure, b, record);
    }

    method SetFailed(b: Id, record: BoxRecord)
      requires ValidBut(b) && b in records && InLimits(record.settings, config.secure)
      requires Chosen(record.settings) == Chosen(records[b].settings)
      modifies this`records, this`active
      ensures Valid() && Step(old(View()), View(), b)
      ensures records == old(records)[b := record.(status := Failed, sandbox := None)] && active == old(active) - {b}
    {
      hide *;
      Resign(b, record.(status := Failed, sandbox := None));
    }

    method MarkStopped(b: Id, record: BoxRecord)
      requires ValidBut(b) && b in records && InLimits(record.settings, config.secure)
      requires Chosen(record.settings) == Chosen(records[b].settings)
      modifies this`records, this`active
      ensures Valid() && Step(old(View()), View(), b)
      ensures records == old(records)[b := record.(status := Stopped, sandbox := None)] && active == old(active) - {b}
    {
      hide *;
      Resign(b, record.(status := Stopped, sandbox := None));
    }

    /** Where a running BOX's sandbox is looked up. */
    function SandboxOf(b: Id, record: BoxRecord): Option<Id> reads this {
      if record.sandbox.Some? then record.sandbox else if b in active then Some(active[b]) else None
    }

    /** A running BOX whose sandbox does not answer is marked failed, and the sandbox left
        with the runtime. */
    method Abandon(b: Id, record: BoxRecord)
      requires Valid() && b in records && records[b] == record && b in active
      modifies this`records, this`active
      ensures Valid() && Step(old(View()), View(), b) && Orphaned(View(), b)
      ensures records == old(records)[b := record.(status := Failed, sandbox := None)] && active == old(active) - {b}
    {
      ghost var w := View();
      InvariantParts(w, config.secure, b);
      hide Invariant, InvariantBut, Base, Step, InLimits, Sound, AllLaunchable, ValidConfig;
      SetFailed(b, record);
    }

    /** Reports a BOX: a running one stays running exactly when its sandbox answers. */
    method AttachRuntimeUsage(b: Id, record: BoxRecord, env: Env) returns (r: Result<BoxRecord, Error>)
      requires Valid() && b in records && records[b] == record
      modifies this`records, this`active
      ensures Valid() && Step(old(View()), View(), b)
      ensures r.Ok? && b in records && records[b] == r.value && (r.value.status == record.status ==> r.value == record)
      ensures r.value.status != record.status ==> r.value.settings.fsSizeMib.current == DiskSize(b)
      ensures r.value.status == record.status || (record.status == Running && r.value.status == Failed)
      ensures record.status == Running ==> (r.value.status == Running <==> b in env.answers)
      ensures record.status == Running ==> (r.value.status == Failed <==> Orphaned(View(), b))
      ensures Orphaned(View(), b) && !old(Orphaned(View(), b)) ==> b !in env.answers
    {
      ghost var w := View();
      NoStep(w, b);
      InvariantParts(w, config.secure, b);
      hide Invariant, InvariantBut, Base, Step, InLimits, Sound, AllLaunchable, ValidConfig, Attached;
      if record.status != Running { return Ok(record); }
      var id := SandboxOf(b, record);
      var stats := runtime.RuntimeStats(id.value, b in env.answers, b in env.unknowns);
      if stats.Ok? { return Ok(record); }
      Abandon(b, record);
      ghost var v := View();
      r := ReadBox(b, env.host);
      StepTransitive(w, v, View(), b);
    }

    method GetBox(b: Id, env: Env) returns (r: Result<BoxRecord, Error>)
      requires Valid()
      modifies this`records, this`active
      ensures Valid() && Step(old(View()), View(), b)
      ensures r.Ok? <==> b in old(records)
      ensures r.Ok? ==> b in records && records[b] == r.value && r.value.settings.fsSizeMib.current == DiskSize(b)
      ensures r.Ok? && !old(IsRunning(View(), b)) ==> r.value.status == old(records)[b].status
      ensures old(IsRunning(View(), b)) ==> r.value.status == (if b in env.answers then Running else Failed)
      ensures old(IsRunning(View(), b)) ==> (Orphaned(View(), b) <==> b !in env.answers)
      ensures Orphaned(View(), b) && !old(Orphaned(View(), b)) ==> b !in env.answers
      ensures r.Ok? && (old(IsRunning(View(), b)) ==> b in env.answers) ==>
                r.value.settings == Reported(old(records)[b].settings, DiskSize(b), config, env.host)
    {
      ghost var w := View();
      hide LocalBoxService.Ready, LocalBoxService.Valid, Step, InLimits, Orphaned, Reported;
      var read := ReadBox(b, env.host);
      if read.Err? { return Err(read.error); }
      ghost var v := View();
      r := AttachRuntimeUsage(b, read.value, env);
      StepTransitive(w, v, View(), b);
    }

    method PutDisk(b: Id, n: nat)
      requires Valid() && b in records && n >= 64
      modifies this`disks
      ensures Valid() && Turn(old(View()), View(), b) && (Orphaned(View(), b) <==> old(Orphaned(View(), b)))
      ensures disks == old(disks)[b := n] && (n == old(DiskSize(b)) ==> Step(old(View()), View(), b))
    {
      ghost var w := View();
      InvariantParts(w, config.secure, b);
      hide Invariant, InvariantBut, Base, Turn, Step, InLimits, AllLaunchable, Sound, ValidConfig, Orphaned, BigEnough;
      disks := disks[b := n];
      assert disks - {b} == w.disks - {b};
      StorageKeeps(w, View(), config.secure, b);
    }

    method PutCheckpoints(b: Id, list: seq<Checkpoint>)
      requires Valid() && b in records && BigEnough(list)
      modifies this`kept
      ensures Valid() && Step(old(View()), View(), b) && (Orphaned(View(), b) <==> old(Orphaned(View(), b)))
      ensures kept == old(kept)[b := list]
    {
      ghost var w := View();
      InvariantParts(w, config.secure, b);
      hide Invariant, InvariantBut, Base, Turn, Step, InLimits, AllLaunchable, Sound, ValidConfig, Orphaned, BigEnough;
      kept := kept[b := list];
      assert kept - {b} == w.kept - {b};
      StorageKeeps(w, View(), config.secure, b);
    }

    /** No checkpoint's copy, and no disk, is smaller than a disk may be. */
    lemma Sizes(b: Id)
      requires Valid()
      ensures DiskSize(b) >= 64 && BigEnough(Checkpoints(b))
    {
      InvariantParts(View(), config.secure, b);
    }

    /** The workspace is prepared on the way to a launch: a missing disk is made anew. */
    method PrepareDisk(b: Id)
      requires Valid() && b in records
      modifies this`disks
      ensures Valid() && Step(old(View()), View(), b) && b in disks && DiskSize(b) == old(DiskSize(b))
      ensures disks == old(disks)[b := DiskSize(b)] && (Orphaned(View(), b) <==> old(Orphaned(View(), b)))
    {
      NoStep(View(), b);
      Sizes(b);
      hide LocalBoxService.Ready, LocalBoxService.Valid, Turn, Step, Orphaned, BigEnough;
      if b in disks {
        assert disks[b := DiskSize(b)] == disks;
        return;
      }
      PutDisk(b, config.diskSizeMib);
    }

    /** Asks the runtime for a sandbox with what the record of a BOX just read says, and
        records the outcome. */
    method Launch(b: Id, stopped: BoxRecord, env: Env) returns (r: Result<BoxRecord, Error>)
      requires Valid() && b in records && records[b] == stopped && stopped.status != Running
      modifies this`records, this`active, runtime`issued, runtime`requested, runtime.registry
      ensures Valid() && Step(old(View()), View(), b) && b in records
      ensures r.Ok? <==> !Attached(old(View().sessions), b) && Boots(env.boot)
      ensures if r.Ok? then records[b] == r.value
              else records[b].status == Failed && records[b].sandbox == None
      ensures r.Ok? ==> r.value.status == if b in env.answers then Running else Failed
      ensures r.Ok? ==> (r.value.status == Failed <==> Orphaned(View(), b))
      ensures r.Err? ==> View().sessions == old(View().sessions) && (r.error == Invalid || r.error.Backend?)
      ensures runtime.requested == old(runtime.requested) + [BoxPolicy(stopped.settings, config.policy.timeoutMs)]
    {
      ghost var w := View();
      InvariantParts(w, config.secure, b);
      var policy := BoxPolicy(stopped.settings, config.policy.timeoutMs);
      PolicyLaunchable(stopped.settings, config);
      OneMoreLaunchable(runtime.requested, policy, config.secure);
      hide Invariant, InvariantBut, Base, Step, InLimits, Attached, AllLaunchable, Sound, ValidConfig, Orphaned,
           BoxPolicy;
      var created := runtime.CreateSandbox(b, policy, env.boot, b in env.unknowns);
      if created.Err? {
        r := Err(created.error);
        LaunchFails(b, stopped, w);
      } else {
        r := Launched(b, stopped, created.value, w, env);
      }
    }

    method LaunchFails(b: Id, stopped: BoxRecord, ghost w: World)
      requires Ready() && Invariant(w, config.secure) && b in records && records[b] == stopped
      requires View() == w.(issued := runtime.issued) && w.issued <= runtime.issued
                 && InLimits(stopped.settings, config.secure)
      modifies this`records, this`active
      ensures Valid() && Step(w, View(), b) && b in records
      ensures records[b] == stopped.(status := Failed, sandbox := None) && View().sessions == old(View().sessions)
    {
      hide Invariant, InvariantBut, Base, Step, InLimits, Sound, AllLaunchable, ValidConfig;
      DrawKeeps(w, View(), config.secure, b);
      ghost var v := View();
      InvariantParts(v, config.secure, b);
      SetFailed(b, stopped);
      StepTransitive(w, v, View(), b);
    }

    method Launched(b: Id, stopped: BoxRecord, id: Id, ghost w: World, env: Env) returns (r: Result<BoxRecord, Error>)
      requires Ready() && Invariant(w, config.secure) && b in records && records[b] == stopped
      requires !Attached(w.sessions, b) && id !in w.sessions && InLimits(stopped.settings, config.secure)
      requires w.issued <= runtime.issued
      requires View() == w.(issued := runtime.issued, sessions := w.sessions[id := Session(b, id)])
      modifies this`records, this`active
      ensures Valid() && Step(w, View(), b) && b in records
      ensures r.Ok? && records[b] == r.value && r.value.status == (if b in env.answers then Running else Failed)
      ensures r.value.status == Failed <==> Orphaned(View(), b)
    {
      hide Invariant, InvariantBut, Base, Step, InLimits, Sound, AllLaunchable, ValidConfig, Attached, Orphaned;
      var record := stopped.(status := Running, sandbox := Some(id));
      active := active[b := id];
      records := records[b := record];
      LaunchKeeps(w, View(), config.secure, b, id, record);
      ghost var v := View();
      r := AttachRuntimeUsage(b, record, env);
      StepTransitive(w, v, View(), b);
    }

    /** A BOX that is not running starts exactly when the runtime holds no sandbox for it and
        every step of the launch succeeds, under the settings its record reads. */
    method StartBox(b: Id, env: Env) returns (r: Result<BoxRecord, Error>)
      requires Valid()
      modifies this`records, this`active, this`disks, runtime`issued, runtime`requested, runtime.registry
      ensures Valid() && Step(old(View()), View(), b)
      ensures r == Err(NotFound) <==> b !in old(records)
      ensures old(IsRunning(View(), b)) ==> r == Err(Conflict) && IsRunning(View(), b)
      ensures old(Orphaned(View(), b)) ==> r.Err?
      ensures r.Ok? <==> b in old(records) && !old(IsRunning(View(), b)) && !Attached(old(View().sessions), b)
                         && Boots(env.boot)
      ensures b in old(records) && !old(IsRunning(View(), b)) ==>
                && b in records
                && (r.Ok? ==> records[b] == r.value && r.value.status == (if b in env.answers then Running else Failed))
                && (r.Err? ==> records[b].status == Failed && records[b].sandbox == None)
                && var s := Reported(old(records)[b].settings, old(DiskSize(b)), config, env.host);
                && runtime.requested == old(runtime.requested)
                     + [Policy(s.cpuCores.current, s.memoryMb.current, s.maxProcesses.current,
                               s.networkEnabled.current, config.policy.timeoutMs)]
      ensures b !in old(records) || old(IsRunning(View(), b)) ==> runtime.requested == old(runtime.requested)
      ensures r.Ok? ==> (Orphaned(View(), b) <==> b !in env.answers)
      ensures r.Err? ==> (Orphaned(View(), b) <==> old(Orphaned(View(), b)))
    {
      ghost var w0 := View();
      hide LocalBoxService.Ready, LocalBoxService.Valid, Step, InLimits, Attached, Reported, Boots;
      var read := ReadBox(b, env.host);
      if read.Err? { return Err(read.error); }
      if read.value.status == Running { return Err(Conflict); }
      ghost var w := View();
      if env.boot.prepared { PrepareDisk(b); StepTransitive(w0, w, View(), b); }
      ghost var v := View();
      r := Launch(b, read.value, env);
      StepTransitive(w0, v, View(), b);
    }

    /** `running_sandbox_id`, on a running BOX. */
    method RunningSandboxId(b: Id, host: Host) returns (id: Id)
      requires Valid() && IsRunning(View(), b)
      modifies this`records, this`active
      ensures Valid() && Step(old(View()), View(), b) && IsRunning(View(), b)
      ensures active == old(active) && b in active && active[b] == id
    {
      InvariantParts(View(), config.secure, b);
      hide Invariant, InvariantBut, Base, Step, InLimits, Sound, AllLaunchable, ValidConfig, Attached;
      var read := ReadBox(b, host);
      id := SandboxOf(b, read.value).value;
      assert active[b := id] == active;
      active := active[b := id];
    }

    /** Destroys the sandbox of a running BOX and records the outcome; success tells
        whether the runtime still knew the sandbox. */
    method Halt(b: Id, record: BoxRecord, id: Id, env: Env) returns (r: Result<bool, Error>)
      requires Valid() && b in records && b in active && active[b] == id
      requires InLimits(record.settings, config.secure) && Chosen(record.settings) == Chosen(records[b].settings)
      modifies this`records, this`active, runtime`failures, runtime.registry
      ensures Valid() && Step(old(View()), View(), b) && b in records
      ensures !Attached(View().sessions, b) && active == old(active) - {b}
      ensures records[b] == record.(status := if r.Ok? then Stopped else Failed, sandbox := None)
      ensures (r.Ok? <==> Stops(env, b)) && (r.Ok? ==> r.value == (b in env.shuts))
      ensures runtime.failures == old(runtime.failures) + if r.Ok? then 0 else 1
    {
      ghost var w := View();
      DestroyDetaches(w, runtime.registry.View(), runtime.issued, runtime.poolSize, config.secure, b);
      hide Invariant, InvariantBut, Step, InLimits, Base, Attached, Sound, AllLaunchable, ValidConfig;
      var destroyed := runtime.DestroySandbox(id, b in env.shuts, b in env.unknowns);
      DestroyKeeps(w, View(), config.secure, b);
      ghost var v := View();
      if destroyed.Ok? || MissingSession(destroyed.error) {
        MarkStopped(b, record);
        r := Ok(destroyed.Ok?);
      } else {
        SetFailed(b, record);
        r := Err(destroyed.error);
      }
      StepTransitive(w, v, View(), b);
    }

    method StopBox(b: Id, env: Env) returns (r: Result<BoxRecord, Error>)
      requires Valid()
      modifies this`records, this`active, runtime`failures, runtime.registry
      ensures Valid() && Step(old(View()), View(), b) && !IsRunning(View(), b)
      ensures b !in old(records) ==> r == Err(NotFound)
      ensures b in old(records) && !old(IsRunning(View(), b)) ==> r == Err(Conflict)
      ensures old(IsRunning(View(), b)) ==>
                && b in records && !Attached(View().sessions, b) && (r.Ok? <==> Stops(env, b))
                && (r.Ok? ==>
                      records[b] == r.value && r.value.status == Stopped && runtime.failures == old(runtime.failures))
                && (r.Err? ==> records[b].status == Failed && runtime.failures == old(runtime.failures) + 1)
      ensures !old(IsRunning(View(), b)) ==> StatusKept(old(View()), View(), b)
      ensures Orphaned(View(), b) ==> old(Orphaned(View(), b))
    {
      ghost var w0 := View();
      hide LocalBoxService.Ready, LocalBoxService.Valid, Step, InLimits, Attached, Chosen;
      var read := ReadBox(b, env.host);
      if read.Err? { return Err(read.error); }
      if read.value.status != Running { return Err(Conflict); }
      ghost var w := View();
      var id := RunningSandboxId(b, env.host);
      StepTransitive(w0, w, View(), b);
      ghost var v := View();
      StepIsTurn(w, v, b);
      var halted := Halt(b, read.value, id, env);
      StepTransitive(w0, v, View(), b);
      if halted.Err? { return Err(halted.error); }
      if halted.value { return Ok(records[b]); }
      ghost var u := View();
      r := ReadBox(b, env.host);
      StepTransitive(w0, u, View(), b);
    }

    /** What every file, exec, shell and checkpoint call goes through first.  A running BOX
        passes here exactly when its sandbox answers, and is left orphaned otherwise. */
    method EnsureRuntime(b: Id, env: Env) returns (r: Result<Id, Error>)
      requires Valid()
      modifies this`records, this`active
      ensures Valid() && Step(old(View()), View(), b)
      ensures r.Ok? ==> IsRunning(View(), b) && b in active && active[b] == r.value && r.value in View().sessions
      ensures b !in old(records) ==> r == Err(NotFound)
      ensures b in old(records) && !old(IsRunning(View(), b)) ==> r == Err(Conflict)
      ensures b in old(records) ==> b in records && records[b].status == StatusRead(old(View()), env, b)
      ensures old(IsRunning(View(), b)) ==> (r.Ok? <==> b in env.answers)
      ensures old(IsRunning(View(), b)) ==> (r.Err? <==> Orphaned(View(), b))
      ensures Orphaned(View(), b) && !old(Orphaned(View(), b)) ==> b !in env.answers
    {
      ghost var w0 := View();
      InvariantParts(w0, config.secure, b);
      hide Invariant, InvariantBut, Base, Step, InLimits, Sound, AllLaunchable, ValidConfig, Attached, Reported;
      var read := ReadBox(b, env.host);
      if read.Err? { return Err(read.error); }
      if read.value.status != Running { return Err(Conflict); }
      var id := SandboxOf(b, read.value).value;
      assert active[b := id] == active;
      active := active[b := id];
      var stats := runtime.RuntimeStats(id, b in env.answers, b in env.unknowns);
      if stats.Ok? { return Ok(id); }
      ghost var w := View();
      Abandon(b, read.value);
      StepTransitive(w0, w, View(), b);
      r := Err(stats.error);
    }

    /** A new BOX with a disk of the default size, not running. */
    method CreateBoxRecord(settings: BoxSettings, host: Host) returns (b: Id)
      requires Valid()
      modifies this`records, this`disks, runtime`issued
      ensures Valid() && Step(old(View()), View(), b) && !Orphaned(View(), b)
      ensures b !in old(records) && b in records && records[b].status == Created && records[b].sandbox == None
      ensures InLimits(settings, config.secure) ==> Chosen(records[b].settings) == Chosen(settings)
      ensures DiskSize(b) == config.diskSizeMib && records[b].settings.fsSizeMib.current == config.diskSizeMib
    {
      ghost var w := View();
      hide Invariant, Step, InLimits, AllLaunchable, Orphaned, Chosen;
      b := runtime.FreshId();
      disks := disks[b := config.diskSizeMib];
      var record := HydrateRecord(b, BoxRecord(Created, settings, None), host);
      records := records[b := record];
      CreateKeeps(w, View(), config.secure, b, record);
    }

    /** Stops a BOX that is running; tells whether it was. */
    method StopIfRunning(b: Id, env: Env) returns (r: Result<bool, Error>)
      requires Valid()
      modifies this`records, this`active, runtime`failures, runtime.registry
      ensures Valid() && Step(old(View()), View(), b) && !IsRunning(View(), b)
      ensures b !in old(records) <==> b !in records
      ensures b !in old(records) ==> r == Err(NotFound)
      ensures r.Ok? ==> r.value == old(IsRunning(View(), b))
      ensures r.Ok? <==> b in old(records) && (old(IsRunning(View(), b)) ==> Stops(env, b))
      ensures old(IsRunning(View(), b)) ==> !Attached(View().sessions, b)
      ensures b in old(records) ==> records[b].status == StatusHalted(old(View()), env, b)
      ensures Orphaned(View(), b) ==> old(Orphaned(View(), b))
    {
      ghost var w0 := View();
      hide LocalBoxService.Ready, LocalBoxService.Valid, Step, InLimits, Attached, Chosen;
      var read := ReadBox(b, env.host);
      if read.Err? { return Err(read.error); }
      if read.value.status != Running { return Ok(false); }
      ghost var w := View();
      var stopped := StopBox(b, env);
      StepTransitive(w0, w, View(), b);
      r := if stopped.Ok? then Ok(true) else Err(stopped.error);
    }

    /** Drops what a removal drops: disk, then checkpoints, then the record.  It may be cut
        short before the record goes. */
    method Clear(b: Id, record: BoxRecord, steps: Clearing) returns (cleared: bool, wrote: bool)
      requires Valid() && b in records && !IsRunning(View(), b)
      requires record.status == Removing && InLimits(record.settings, config.secure)
      requires Chosen(record.settings) == Chosen(records[b].settings)
      modifies this
      ensures Valid() && Turn(old(View()), View(), b) && (Orphaned(View(), b) ==> old(Orphaned(View(), b)))
      ensures cleared ==> b !in records && b !in active && b !in disks && b !in kept
      ensures !cleared ==> b in records && records[b] == record
      ensures wrote == steps.disk && cleared == (steps.disk && steps.list && steps.record)
      ensures if wrote then b !in disks else disks == old(disks) && kept == old(kept)
    {
      ghost var w := View();
      hide Invariant, Turn, InLimits, AllLaunchable, Orphaned, Chosen, Sound, ValidConfig;
      cleared, wrote := steps.disk && steps.list && steps.record, steps.disk;
      disks := if steps.disk then disks - {b} else disks;
      kept := if steps.disk && steps.list then kept - {b} else kept;
      active := if cleared then active - {b} else active;
      records := if cleared then records - {b} else records[b := record];
      RemoveKeeps(w, View(), config.secure, b, record);
    }

    /** Tells also whether the disk is gone, which it may be though the removal failed. */
    method RemoveBox(b: Id, env: Env) returns (r: Result<(), Error>, wrote: bool)
      requires Valid()
      modifies this, runtime`failures, runtime.registry
      ensures Valid() && Turn(old(View()), View(), b) && (Orphaned(View(), b) ==> old(Orphaned(View(), b)))
      ensures r.Ok? ==> b in old(records) && b !in records && b !in active && b !in disks && b !in kept
      ensures r.Err? ==> (b in records <==> b in old(records)) && !IsRunning(View(), b)
      ensures r.Err? && b in old(records) ==> Chosen(records[b].settings) == Chosen(old(records)[b].settings)
      ensures var begins := b in old(records) && (old(IsRunning(View(), b)) ==> Stops(env, b));
              && wrote == (begins && env.clearing.disk)
              && (r.Ok? <==> wrote && env.clearing.list && env.clearing.record)
      ensures r.Err? && b in old(records) ==>
                records[b].status == if old(IsRunning(View(), b)) && !Stops(env, b) then Failed else Removing
      ensures if wrote then b !in disks else kept == old(kept) && DiskSize(b) == old(DiskSize(b))
    {
      ghost var w0 := View();
      hide LocalBoxService.Ready, LocalBoxService.Valid, Step, Turn, InLimits, Orphaned, Chosen;
      var stopped := StopIfRunning(b, env);
      StepIsTurn(w0, View(), b);
      if stopped.Err? { return Err(stopped.error), false; }
      ghost var w := View();
      var read := ReadBox(b, env.host);
      StepTransitive(w0, w, View(), b);
      StepIsTurn(w0, View(), b);
      ghost var v := View();
      var cleared, gone := Clear(b, read.value.(status := Removing, sandbox := None), env.clearing);
      TurnTransitive(w0, v, View(), b);
      r, wrote := if cleared then Ok(()) else Err(Backend(b in env.unknowns)), gone;
    }

    /** `resize_workspace`: the disk has the new size exactly when the length of its file
        came to be set, whether or not the rest succeeded. */
    method ResizeWorkspace(b: Id, n: nat, tools: Tools) returns (r: Result<(), Error>)
      requires Valid() && b in records && n >= 64
      modifies this`disks
      ensures Valid() && Turn(old(View()), View(), b) && (Orphaned(View(), b) <==> old(Orphaned(View(), b)))
      ensures r.Ok? <==> Resizes(tools, old(DiskSize(b)), n)
      ensures r.Err? ==> r.error.Backend?
      ensures DiskSize(b) == if LengthSet(tools, old(DiskSize(b)), n) then n else old(DiskSize(b))
    {
      hide LocalBoxService.Ready, LocalBoxService.Valid, Turn, Step, Orphaned;
      ghost var w := View();
      NoStep(w, b);
      StepIsTurn(w, w, b);
      if !tools.prepared { return Err(Backend(false)); }
      PrepareDisk(b);
      StepIsTurn(w, View(), b);
      var size := disks[b];
      if size == n { return Ok(()); }
      if !tools.checked { return Err(Backend(false)); }
      if n > size {
        if !tools.sized { return Err(Backend(false)); }
        SetLength(b, n, w);
        if !tools.resized { return Err(Backend(false)); }
      } else {
        if !tools.resized || !tools.sized { return Err(Backend(false)); }
        SetLength(b, n, w);
        if !tools.rechecked { return Err(Backend(false)); }
      }
      r := Ok(());
    }

    /** The disk's file is given another length, in the course of an operation. */
    method SetLength(b: Id, n: nat, ghost w: World)
      requires Valid() && b in records && n >= 64 && Turn(w, View(), b) && (Orphaned(View(), b) <==> Orphaned(w, b))
      modifies this`disks
      ensures Valid() && Turn(w, View(), b) && (Orphaned(View(), b) <==> Orphaned(w, b)) && DiskSize(b) == n
    {
      hide LocalBoxService.Ready, LocalBoxService.Valid, Turn, Step, Orphaned;
      ghost var v := View();
      PutDisk(b, n);
      TurnTransitive(w, v, View(), b);
    }

    /** Writes settings to a record and reads it back. */
    method StoreSettings(b: Id, settings: BoxSettings, host: Host) returns (a: BoxRecord)
      requires Valid() && b in records && InLimits(settings, config.secure)
      modifies this`records
      ensures Valid() && Turn(old(View()), View(), b) && (Orphaned(View(), b) <==> old(Orphaned(View(), b)))
      ensures b in records && records[b] == a && a == old(records)[b].(settings := a.settings)
      ensures Chosen(a.settings) == Chosen(settings) && a.settings.fsSizeMib.current == DiskSize(b)
    {
      ghost var w := View();
      InvariantParts(w, config.secure, b);
      hide Invariant, InvariantBut, Base, Turn, Step, InLimits, AllLaunchable, Sound, Orphaned, Chosen;
      records := records[b := records[b].(settings := settings)];
      a := HydrateRecord(b, records[b], host);
      records := records[b := a];
      RewriteKeeps(w, View(), config.secure, b, a);
    }

    /** Writes a value found acceptable: the disk first, then the record. */
    method Apply(b: Id, value: SettingValue, settings: BoxSettings, env: Env) returns (r: Result<BoxRecord, Error>)
      requires Valid() && b in records && InLimits(settings, config.secure) && (value.FsSizeMib? ==> value.n >= 64)
      modifies this`records, this`disks
      ensures Valid() && Turn(old(View()), View(), b) && (Orphaned(View(), b) <==> old(Orphaned(View(), b)))
      ensures b in records && if r.Ok? then records[b] == r.value else records == old(records)
      ensures r.Ok? ==> r.value == old(records)[b].(settings := r.value.settings)
      ensures r.Ok? ==> Chosen(r.value.settings) == Chosen(settings)
      ensures r.Ok? ==> r.value.settings.fsSizeMib.current == DiskSize(b)
      ensures r.Err? ==> r.error.Backend?
      ensures !value.FsSizeMib? || value.n == old(DiskSize(b)) ==> r.Ok? && DiskSize(b) == old(DiskSize(b))
      ensures value.FsSizeMib? && value.n != old(DiskSize(b)) ==>
                && (r.Ok? <==> Resizes(env.tools, old(DiskSize(b)), value.n))
                && DiskSize(b) == if LengthSet(env.tools, old(DiskSize(b)), value.n) then value.n else old(DiskSize(b))
    {
      hide LocalBoxService.Ready, LocalBoxService.Valid, Step, Turn, InLimits, Orphaned, Chosen, Resizes, LengthSet;
      ghost var w := View();
      if value.FsSizeMib? && value.n != DiskSize(b) {
        r := ResizeThenStore(b, value.n, settings, env);
      } else {
        var record := StoreSettings(b, settings, env.host);
        r := Ok(record);
      }
    }

    method ResizeThenStore(b: Id, n: nat, settings: BoxSettings, env: Env) returns (r: Result<BoxRecord, Error>)
      requires Valid() && b in records && InLimits(settings, config.secure) && n >= 64
      modifies this`records, this`disks
      ensures Valid() && Turn(old(View()), View(), b) && (Orphaned(View(), b) <==> old(Orphaned(View(), b)))
      ensures b in records && if r.Ok? then records[b] == r.value else records == old(records)
      ensures r.Ok? ==> r.value == old(records)[b].(settings := r.value.settings)
      ensures r.Ok? ==> Chosen(r.value.settings) == Chosen(settings)
      ensures r.Ok? ==> r.value.settings.fsSizeMib.current == DiskSize(b)
      ensures r.Err? ==> r.error.Backend?
      ensures r.Ok? <==> Resizes(env.tools, old(DiskSize(b)), n)
      ensures DiskSize(b) == if LengthSet(env.tools, old(DiskSize(b)), n) then n else old(DiskSize(b))
    {
      hide LocalBoxService.Ready, LocalBoxService.Valid, Step, Turn, InLimits, Orphaned, Chosen, Resizes, LengthSet;
      ghost var w := View();
      var resized := ResizeWorkspace(b, n, env.tools);
      if resized.Err? { return Err(resized.error); }
      ghost var v := View();
      var record := StoreSettings(b, settings, env.host);
      TurnTransitive(w, v, View(), b);
      r := Ok(record);
    }

    /** A value is taken exactly when the host's capacity allows it. */
    lemma AcceptedIff(b: Id, s: BoxSettings, value: SettingValue, host: Host)
      requires Valid()
      ensures Changed(Reported(s, DiskSize(b), config, host), value).Some? <==>
                Acceptable(s, DiskSize(b), DetectCaps(config, host, DiskSize(b)), value)
    {
      hide Changed, Acceptable, NormalizeSettings, DetectCaps, Invariant, AllLaunchable, Sound;
      CapsCoverDefaults(config, host, DiskSize(b));
      ChangedIffAcceptable(s, DiskSize(b), DetectCaps(config, host, DiskSize(b)), value);
    }

    /** An accepted value is what is read back, and nothing else the user chose moves; a
        rejected one changes nothing but, when a resize fails after setting the length, the
        disk. */
    method SetBoxSetting(b: Id, value: SettingValue, env: Env) returns (r: Result<BoxRecord, Error>)
      requires Valid()
      modifies this`records, this`disks
      ensures Valid() && Turn(old(View()), View(), b) && (Orphaned(View(), b) <==> old(Orphaned(View(), b)))
      ensures b !in old(records) ==> r == Err(NotFound)
      ensures old(IsRunning(View(), b)) ==> r == Err(Conflict)
      ensures (b in records <==> b in old(records)) && StatusKept(old(View()), View(), b)
      ensures r.Ok? ==> b in records && records[b] == r.value && r.value.settings.fsSizeMib.current == DiskSize(b)
      ensures r.Ok? && value.FsSizeMib? ==> DiskSize(b) == value.n
      ensures r.Ok? && value.FsSizeMib? ==>
                value.n == old(DiskSize(b)) || Resizes(env.tools, old(DiskSize(b)), value.n)
      ensures r.Err? && r.error.Backend? ==>
                && value.FsSizeMib? && value.n != old(DiskSize(b)) && !Resizes(env.tools, old(DiskSize(b)), value.n)
                && DiskSize(b) == if LengthSet(env.tools, old(DiskSize(b)), value.n) then value.n else old(DiskSize(b))
      ensures b in old(records) && !old(IsRunning(View(), b)) ==>
                var size := old(DiskSize(b));
                if !Acceptable(old(records)[b].settings, size, DetectCaps(config, env.host, size), value) then
                  r == Err(Invalid)
                else
                  r.Ok? || r.error.Backend?
      ensures b in old(records) ==>
                Chosen(records[b].settings) == if r.Ok? then With(Chosen(old(records)[b].settings), value)
                                               else Chosen(old(records)[b].settings)
      ensures !value.FsSizeMib? || (r.Err? && !r.error.Backend?) ==> DiskSize(b) == old(DiskSize(b))
    {
      ghost var w0 := View();
      hide LocalBoxService.Ready, LocalBoxService.Valid, Step, Turn, InLimits, Orphaned, Chosen, Changed, With,
           Resizes, LengthSet, Reported, Acceptable;
      HalfwayIff(env.tools, DiskSize(b), if value.FsSizeMib? then value.n else 0);
      var read := ReadBox(b, env.host);
      StepIsTurn(w0, View(), b);
      if read.Err? { return Err(read.error); }
      if read.value.status == Running { return Err(Conflict); }
      var settings := Changed(read.value.settings, value);
      AcceptedIff(b, w0.records[b].settings, value, env.host);
      if settings.None? { return Err(Invalid); }
      ChangedInLimits(read.value.settings, value, config.secure);
      ghost var v := View();
      StepIsTurn(w0, v, b);
      r := Apply(b, value, settings.value, env);
      TurnTransitive(w0, v, View(), b);
    }

    // ---- checkpoints ----

    /** A checkpoint keeps a copy of the disk as it is. */
    method CheckpointCreate(b: Id, env: Env) returns (r: Result<Id, Error>)
      requires Valid()
      modifies this`records, this`active, this`kept, runtime`issued
      ensures Valid() && Step(old(View()), View(), b)
      ensures r.Ok? ==> IsRunning(View(), b) && b in kept
                        && kept[b] == old(Checkpoints(b)) + [Checkpoint(r.value, DiskSize(b))]
                          && r.value == old(runtime.issued)
      ensures r.Err? ==> kept == old(kept)
      ensures b in old(records) ==> b in records && records[b].status == StatusRead(old(View()), env, b)
      ensures r.Ok? <==> old(IsRunning(View(), b)) && b in env.answers && env.captured
      ensures Orphaned(View(), b) && !old(Orphaned(View(), b)) ==> r.Err? && b !in env.answers
    {
      ghost var w0 := View();
      hide LocalBoxService.Ready, LocalBoxService.Valid, Step, Attached;
      var ensured := EnsureRuntime(b, env);
      if ensured.Err? { return Err(ensured.error); }
      if !env.captured { return Err(Backend(b in env.unknowns)); }
      ghost var w := View();
      var id := Keep(b);
      StepTransitive(w0, w, View(), b);
      r := Ok(id);
    }

    method Keep(b: Id) returns (id: Id)
      requires Valid() && b in records
      modifies this`kept, runtime`issued
      ensures Valid() && Step(old(View()), View(), b) && id == old(runtime.issued)
      ensures kept == old(kept)[b := old(Checkpoints(b)) + [Checkpoint(id, DiskSize(b))]]
    {
      ghost var w := View();
      Sizes(b);
      hide Invariant, Step, AllLaunchable, ValidConfig, Orphaned;
      id := runtime.FreshId();
      DrawKeeps(w, View(), config.secure, b);
      ghost var v := View();
      PutCheckpoints(b, Checkpoints(b) + [Checkpoint(id, DiskSize(b))]);
      StepTransitive(w, v, View(), b);
    }

    method CheckpointList(b: Id, host: Host) returns (r: Result<seq<Checkpoint>, Error>)
      requires Valid()
      modifies this`records
      ensures Valid() && Step(old(View()), View(), b) && (Orphaned(View(), b) <==> old(Orphaned(View(), b)))
      ensures StatusKept(old(View()), View(), b)
      ensures r == if b in old(records) then Ok(Checkpoints(b)) else Err(NotFound)
    {
      hide LocalBoxService.Ready, LocalBoxService.Valid, Step, Orphaned, Reported;
      var read := ReadBox(b, host);
      r := if read.Ok? then Ok(Checkpoints(b)) else Err(read.error);
    }

    method CheckpointDelete(b: Id, id: Id, host: Host) returns (r: Result<(), Error>)
      requires Valid()
      modifies this`records, this`kept
      ensures Valid() && Step(old(View()), View(), b) && (Orphaned(View(), b) <==> old(Orphaned(View(), b)))
      ensures StatusKept(old(View()), View(), b)
      ensures r == if b in old(records) then Ok(()) else Err(NotFound)
      ensures r.Ok? ==> Checkpoints(b) == Without(old(Checkpoints(b)), id)
    {
      ghost var w := View();
      var read := ReadBox(b, host);
      if read.Err? { return Err(read.error); }
      ghost var v := View();
      Sizes(b);
      hide LocalBoxService.Ready, LocalBoxService.Valid, Turn, Step, Orphaned;
      PutCheckpoints(b, Without(Checkpoints(b), id));
      StepTransitive(w, v, View(), b);
      r := Ok(());
    }

    /** Puts a checkpoint's copy back on the disk of a BOX that is not running; a rollback
        drops the later checkpoints. */
    method RestoreDisk(b: Id, id: Id, mode: Mode, env: Env) returns (r: Result<(), Error>)
      requires Valid() && b in records
      modifies this`disks, this`kept
      ensures Valid() && Turn(old(View()), View(), b) && (Orphaned(View(), b) <==> old(Orphaned(View(), b)))
      ensures var list := old(Checkpoints(b));
              var p := PositionOf(list, id);
              if r.Ok? then
                && p < |list| && DiskSize(b) == list[p].size
                && Checkpoints(b) == if mode.Rollback? then list[..p + 1] else list
              else DiskSize(b) == old(DiskSize(b)) && kept == old(kept)
      ensures r.Ok? <==> env.prepared && PositionOf(old(Checkpoints(b)), id) < |old(Checkpoints(b))| && env.copied
      ensures r.Err? && env.prepared && env.copied ==> r.error == NotFound
    {
      ghost var w := View();
      Sizes(b);
      NoStep(w, b);
      StepIsTurn(w, w, b);
      hide LocalBoxService.Ready, LocalBoxService.Valid, Turn, Step, Orphaned, PositionOf;
      if !env.prepared { return Err(Backend(b in env.unknowns)); }
      PrepareDisk(b);
      StepIsTurn(w, View(), b);
      var list := Checkpoints(b);
      var p := PositionOf(list, id);
      if p == |list| { return Err(NotFound); }
      if !env.copied { return Err(Backend(b in env.unknowns)); }
      SetLength(b, list[p].size, w);
      ghost var v := View();
      PutCheckpoints(b, if mode.Rollback? then list[..p + 1] else list);
      StepIsTurn(v, View(), b);
      TurnTransitive(w, v, View(), b);
      r := Ok(());
    }

    /** A running BOX is stopped around the restore and started again; when a step fails
        the rest is skipped.  Tells also whether the checkpoint was copied to the disk, which
        it may be though the start afterwards failed. */
    method CheckpointRestore(b: Id, id: Id, mode: Mode, env: Env) returns (r: Result<(), Error>, wrote: bool)
      requires Valid()
      modifies this, runtime, runtime.registry
      ensures Valid() && Turn(old(View()), View(), b)
      ensures b !in old(records) ==> r == Err(NotFound)
      ensures b in records <==> b in old(records)
      ensures b in old(records) ==> Chosen(records[b].settings) == Chosen(old(records)[b].settings)
      ensures var list := old(Checkpoints(b));
              var p := PositionOf(list, id);
              if wrote then
                && b in old(records) && p < |list| && DiskSize(b) == list[p].size
                && Checkpoints(b) == if mode.Rollback? then list[..p + 1] else list
              else r.Err? && DiskSize(b) == old(DiskSize(b)) && kept == old(kept)
      ensures r.Err? && wrote ==> old(IsRunning(View(), b)) && r.error != NotFound
      ensures var ran, list := old(IsRunning(View(), b)), old(Checkpoints(b));
              && wrote == (b in old(records) && (ran ==> Stops(env, b)) && env.prepared && env.copied
                           && PositionOf(list, id) < |list|)
              && (r.Ok? <==> wrote && (ran ==> Boots(env.boot)))
              && (IsRunning(View(), b) <==> ran && r.Ok? && b in env.answers)
              && (ran && r.Ok? ==> (Orphaned(View(), b) <==> b !in env.answers))
      ensures b in old(records) && !old(IsRunning(View(), b)) ==> StatusKept(old(View()), View(), b)
      ensures old(IsRunning(View(), b)) ==>
                records[b].status == if !Stops(env, b) then Failed else if !wrote then Stopped
                                     else if Boots(env.boot) && b in env.answers then Running else Failed
      ensures Orphaned(View(), b) && !old(Orphaned(View(), b)) ==> b !in env.answers
    {
      ghost var w0, list := View(), Checkpoints(b);
      hide LocalBoxService.Ready, LocalBoxService.Valid, Step, Turn, InLimits, Orphaned, Chosen, Attached, PositionOf;
      var stopped := StopIfRunning(b, env);
      StepIsTurn(w0, View(), b);
      wrote := false;
      if stopped.Err? { return Err(stopped.error), false; }
      ghost var w := View();
      r := RestoreDisk(b, id, mode, env);
      TurnTransitive(w0, w, View(), b);
      wrote := r.Ok?;
      if r.Err? || !stopped.value { return; }
      ghost var v := View();
      var started := StartBox(b, env);
      StepIsTurn(v, View(), b);
      TurnTransitive(w0, v, View(), b);
      r := if started.Ok? then Ok(()) else Err(started.error);
    }

    /** A new record with another BOX's choices. */
    method CopyRecord(b: Id, host: Host) returns (r: Result<Id, Error>)
      requires Valid()
      modifies this`records, this`disks, runtime`issued
      ensures Valid() && Follows(old(View()), View(), {}) && Spares(old(View()), View())
      ensures forall o :: o in old(records) ==> StatusKept(old(View()), View(), o)
      ensures r.Err? <==> b !in old(records)
      ensures r.Ok? ==> r.value !in old(records) && r.value in records && records[r.value].status == Created
                        && Chosen(records[r.value].settings) == Chosen(old(records)[b].settings)
    {
      ghost var w0 := View();
      hide LocalBoxService.Ready, LocalBoxService.Valid, Invariant, Step, Turn, Follows, Spares, InLimits,
           Orphaned, Chosen;
      var source := ReadBox(b, host);
      StepFollows(w0, View(), b);
      StepSpares(w0, View(), b);
      if source.Err? { return Err(source.error); }
      ghost var w := View();
      StepIsTurn(w0, w, b);
      OthersRead(w0, w, b);
      var made := CreateBoxRecord(source.value.settings, host);
      OthersRead(w, View(), made);
      StepFollows(w, View(), made);
      StepSpares(w, View(), made);
      FollowsOn(w0, w, View());
      SparesOn(w0, w, View());
      r := Ok(made);
    }

    /** A new BOX with the source's choices; it stays even when the copy fails. */
    method CheckpointFork(b: Id, id: Id, env: Env) returns (r: Result<Id, Error>)
      requires Valid()
      modifies this`records, this`disks, runtime`issued
      ensures Valid() && Follows(old(View()), View(), {}) && Spares(old(View()), View())
      ensures forall o :: o in old(records) ==> StatusKept(old(View()), View(), o)
      ensures r.Ok? <==> b in old(records) && PositionOf(old(Checkpoints(b)), id) < |old(Checkpoints(b))|
                         && env.prepared && env.copied
      ensures r.Ok? ==> var list := old(Checkpoints(b));
                        && r.value !in old(records) && r.value in records && records[r.value].status == Created
                        && PositionOf(list, id) < |list| && DiskSize(r.value) == list[PositionOf(list, id)].size
                        && Chosen(records[r.value].settings) == Chosen(old(records)[b].settings)
    {
      ghost var w0 := View();
      Sizes(b);
      hide LocalBoxService.Ready, LocalBoxService.Valid, Turn, Step, Follows, Spares, Orphaned, Chosen, PositionOf;
      var list := Checkpoints(b);
      r := CopyRecord(b, env.host);
      if r.Err? { return; }
      var made, p := r.value, PositionOf(list, id);
      if p == |list| { return Err(NotFound); }
      if !env.prepared || !env.copied { return Err(Backend(b in env.unknowns)); }
      ghost var v := View();
      PutDisk(made, list[p].size);
      OthersStay(v, View(), made);
      ForkFollows(w0, v, View(), made);
    }

    method ListBoxes(env: Env) returns (list: map<Id, BoxRecord>)
      requires Valid()
      modifies this`records, this`active
      ensures Valid() && Follows(old(View()), View(), {})
      ensures list == records && records.Keys == old(records).Keys
      ensures forall b :: b in records ==> list[b].status == StatusRead(old(View()), env, b)
      ensures forall b: Id :: Orphaned(View(), b) && !old(Orphaned(View(), b)) ==> b !in env.answers
    {
      ghost var w0 := View();
      NothingFollows(w0);
      hide LocalBoxService.Ready, LocalBoxService.Valid, Step, Follows, Orphaned, Reported;
      var rest := records.Keys;
      while rest != {}
        invariant Valid() && Follows(w0, View(), {}) && rest <= records.Keys == w0.records.Keys
        invariant forall b :: b in rest ==> records[b] == w0.records[b]
        invariant forall b :: b in records && b !in rest ==> records[b].status == StatusRead(w0, env, b)
        invariant forall b: Id :: Orphaned(View(), b) && !Orphaned(w0, b) ==> b !in env.answers
        decreases rest
      {
        var b :| b in rest;
        ghost var w := View();
        var _ := GetBox(b, env);
        OthersRead(w, View(), b);
        StepFollows(w, View(), b);
        StepKeys(w, View(), b);
        FollowsOn(w0, w, View());
        rest := rest - {b};
      }
      list := records;
    }

    method StopBoxForShutdown(b: Id, env: Env) returns (r: Result<(), Error>)
      requires Valid() && b in records && b in active
      modifies this`records, this`active, runtime`failures, runtime.registry
      ensures Valid() && Step(old(View()), View(), b) && !Orphaned(View(), b)
      ensures active == old(active) - {b} && b in records && records[b].status == StatusHalted(old(View()), env, b)
      ensures (r.Ok? <==> Stops(env, b)) && runtime.failures == old(runtime.failures) + if r.Ok? then 0 else 1
    {
      ghost var w0 := View();
      InvariantParts(w0, config.secure, b);
      hide Invariant, InvariantBut, Base, Sound, Step, InLimits, Attached, AllLaunchable, ValidConfig, Chosen;
      var read := ReadBox(b, env.host);
      ghost var w := View();
      StepIsTurn(w0, w, b);
      var id := SandboxOf(b, read.value).value;
      assert active[b := id] == active;
      active := active[b := id];
      var halted := Halt(b, read.value, id, env);
      StepTransitive(w0, w, View(), b);
      r := if halted.Ok? then Ok(()) else Err(halted.error);
    }

    lemma NoneActive()
      requires Valid() && active.Keys == {}
      ensures active == map[] && forall b :: b in records ==> records[b].status != Running
    {
      EmptyMeansStopped(View(), config.secure);
    }

    /** When every destroy succeeds or reports a missing session, shutdown leaves no
        BOX running and an empty map. */
    method ShutdownDaemon(env: Env) returns (r: Result<(), Error>)
      requires Valid()
      modifies this`records, this`active, runtime`failures, runtime.registry
      ensures Valid() && Follows(old(View()), View(), {}) && Spares(old(View()), View())
      ensures r.Ok? <==> runtime.failures == old(runtime.failures)
      ensures r.Ok? <==> forall b :: b in old(active) ==> Stops(env, b)
      ensures r.Ok? ==> records.Keys == old(records).Keys
      ensures r.Ok? ==> forall b :: b in records ==> records[b].status == StatusHalted(old(View()), env, b)
      ensures r.Ok? ==> active == map[] && forall b :: b in records ==> records[b].status != Running
    {
      ghost var w0 := View();
      NothingFollows(w0);
      NothingSpared(w0);
      HaltingStarts(w0, config.secure, env);
      hide LocalBoxService.Ready, LocalBoxService.Valid, Invariant, Step, Follows, Spares, Orphaned, Stops, Halting;
      var rest := active.Keys;
      while rest != {}
        invariant Valid() && Follows(w0, View(), {}) && Spares(w0, View()) && rest == active.Keys
        invariant runtime.failures == old(runtime.failures) && Halting(w0, View(), rest, env)
        decreases rest
      {
        var b :| b in rest;
        ghost var w := View();
        HaltingHas(w0, w, rest, env, b);
        var stopped := StopBoxForShutdown(b, env);
        StepFollows(w, View(), b);
        StepSpares(w, View(), b);
        FollowsOn(w0, w, View());
        SparesOn(w0, w, View());
        if stopped.Err? { return Err(stopped.error); }
        HaltedOne(w0, w, View(), rest, env, b);
        rest := rest - {b};
      }
      NoneActive();
      HaltingEnds(w0, View(), env);
      r := Ok(());
    }
  }

  lemma WithoutFirst(c: Checkpoint, rest: seq<Checkpoint>, id: Id)
    ensures Without([c] + rest, id) == (if c.id == id then [] else [c]) + Without(rest, id)
    ensures Without([], id) == []
  {
    assert ([c] + rest)[1..] == rest;
  }

  /** What is left is everything else, in the same order. */
  lemma {:induction false} WithoutParts(a: seq<Checkpoint>, b: seq<Checkpoint>, id: Id)
    ensures Without(a + b, id) == Without(a, id) + Without(b, id)
    ensures |a| == 1 ==> Without(a, id) == if a[0].id == id then [] else a
  {
    hide Without;
    if a == [] {
      WithoutFirst(Checkpoint(0, 0), [], id);
      assert a + b == b && [] + Without(b, id) == Without(b, id);
    } else {
      WithoutParts(a[1..], b, id);
      WithoutFirst(a[0], a[1..], id);
      WithoutFirst(a[0], a[1..] + b, id);
      assert a == [a[0]] + a[1..] && a + b == [a[0]] + (a[1..] + b);
      assert |a| == 1 ==> a[1..] == [];
    }
  }

  /** All but some of the BOXes that were active have been halted. */
  ghost predicate Halting(w0: World, w: World, rest: set<Id>, env: Env) {
    && w.records.Keys == w0.records.Keys && rest <= w0.active.Keys
    && (forall b :: b in rest ==> b in w.records && w.records[b] == w0.records[b])
    && (forall b :: b in w.records && b !in rest ==> w.records[b].status == StatusHalted(w0, env, b))
    && (forall b :: b in w0.active && b !in rest ==> Stops(env, b))
  }

  lemma HaltingStarts(w: World, secure: bool, env: Env)
    requires Invariant(w, secure)
    ensures Halting(w, w, w.active.Keys, env)
  {
    ActiveAreRunning(w, secure);
    hide Invariant;
  }

  lemma HaltingHas(w0: World, w: World, rest: set<Id>, env: Env, b: Id)
    requires Halting(w0, w, rest, env) && b in rest
    ensures b in w.records && b in w0.active
  {}

  lemma HaltedOne(w0: World, w: World, w': World, rest: set<Id>, env: Env, b: Id)
    requires Halting(w0, w, rest, env) && b in rest && b in w.records && Step(w, w', b) && Stops(env, b)
    requires b in w'.records && w'.records[b].status == StatusHalted(w, env, b)
    ensures Halting(w0, w', rest - {b}, env)
  {
    OthersRead(w, w', b);
    StepKeys(w, w', b);
    hide Step, Stops, Orphaned;
  }

  lemma HaltingEnds(w0: World, w: World, env: Env)
    requires Halting(w0, w, {}, env)
    ensures w.records.Keys == w0.records.Keys && forall b :: b in w0.active ==> Stops(env, b)
    ensures forall b :: b in w.records ==> w.records[b].status == StatusHalted(w0, env, b)
  {}

  lemma NothingSpared(w: World)
    ensures Spares(w, w)
  {}

  lemma OthersStay(w: World, w': World, b: Id)
    requires Turn(w, w', b)
    ensures forall o :: o != b && o in w.records ==> o in w'.records && w'.records[o] == w.records[o]
  {
    forall o | o != b && o in w.records ensures o in w'.records && w'.records[o] == w.records[o] {
      Elsewhere(w, w', b, o);
    }
  }

  lemma ActiveAreRunning(w: World, secure: bool)
    requires Invariant(w, secure)
    ensures forall b :: b in w.active ==> b in w.records
    ensures forall b :: b in w.records ==> (b in w.active <==> w.records[b].status == Running)
  {
    forall b: Id ensures b in w.active <==> IsRunning(w, b) { assert Healthy(w, b); }
  }

  lemma OthersRead(w: World, w': World, b: Id)
    requires Step(w, w', b)
    ensures forall o :: o != b && o in w.records ==> o in w'.records && w'.records[o] == w.records[o]
    ensures forall o: Id :: o != b && Orphaned(w', o) ==> Orphaned(w, o)
  {
    TurnSpares(w, w', b);
    forall o | o != b && o in w.records ensures o in w'.records && w'.records[o] == w.records[o] {
      Elsewhere(w, w', b, o);
    }
    hide Only, Orphaned;
  }

  lemma StepSpares(w: World, w': World, b: Id)
    requires Step(w, w', b) && (Orphaned(w', b) ==> Orphaned(w, b))
    ensures Spares(w, w')
  {
    TurnSpares(w, w', b);
  }

  lemma SparesOn(w: World, v: World, w': World)
    requires Spares(w, v) && Spares(v, w')
    ensures Spares(w, w')
  {}

  /** The disk of a BOX that was not there before is nobody's choice. */
  lemma {:induction false} ForkFollows(w: World, v: World, w': World, b: Id)
    requires Follows(w, v, {}) && Spares(w, v) && Turn(v, w', b) && b !in w.records
    requires Orphaned(w', b) ==> Orphaned(v, b)
    ensures Follows(w, w', {}) && Spares(w, w')
  {
    TurnSpares(v, w', b);
    hide Spares, Orphaned, KnobKept, Only;
    forall o: Id | Orphaned(w, o) ensures Orphaned(w', o) { if o != b { OrphanElsewhere(v, w', b, o); } }
    forall o: Id, k: Knob | o in w.records ensures KnobKept(w, w', o, k) {
      assert KnobKept(w, v, o, k);
      KnobKeepsBox(w, v, o, k);
      KnobElsewhere(v, w', b, o, k);
      KnobTransitive(w, v, w', o, k);
    }
    assert v.issued <= w'.issued by { OnlyIssues(v, w', b); }
  }

  lemma OnlyIssues(w: World, w': World, b: Id)
    requires Only(w, w', b)
    ensures w.issued <= w'.issued
  {}
}
