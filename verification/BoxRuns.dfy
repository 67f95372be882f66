/** Whole runs of the BOX service, with any runtime failures. */
module BoxRuns {
  import opened Wrappers
  import opened Settings
  import opened Registry
  import opened Boxes
  import opened BoxSteps
  import opened BoxService

  datatype Op =
    | List
    | Get(b: Id)
    | Create
    | Set(b: Id, value: SettingValue)
    | Start(b: Id)
    | Stop(b: Id)
    | Remove(b: Id)
    | Use(b: Id)
    | TakeCheckpoint(b: Id)
    | ListCheckpoints(b: Id)
    | DeleteCheckpoint(b: Id, id: Id)
    | Restore(b: Id, id: Id, mode: Mode)
    | Fork(b: Id, id: Id)
    | Shutdown

  /** The answer, and whether the BOX's disk was written before the operation ended. */
  datatype Outcome = Outcome(answer: Result<(), Error>, wrote: bool)

  /** The knobs an operation moves, given how it ended: an accepted setting its own, a
      removal everything, and whatever wrote the disk the disk. */
  function Tuned(op: Op, r: Outcome): set<(Id, Knob)> {
    match op
    case Set(b, value) =>
      if r.answer.Ok? || r.wrote then {(b, KnobOf(value))} else {}
    case Restore(b, _, _) => if r.wrote then {(b, Disk)} else {}
    case Remove(b) =>
      if r.answer.Ok? then {(b, Cpu), (b, Memory), (b, Processes), (b, Net), (b, Disk)}
      else if r.wrote then {(b, Disk)} else {}
    case _ => {}
  }

  function KeptOf(w: World, b: Id): seq<Checkpoint> { if b in w.kept then w.kept[b] else [] }

  /** What a disk that was written is like: of the size asked for, of the size the
      checkpoint kept, or gone.  A restore answered not found has not written. */
  ghost predicate Written(w: World, w': World, op: Op, r: Outcome) {
    match op
    case Set(b, value) => r.wrote ==> value.FsSizeMib? && SizeOf(w', b) == value.n != SizeOf(w, b)
    case Restore(b, id, _) =>
      var list := KeptOf(w, b);
      && (r.answer.Ok? ==> r.wrote) && (r.answer == Err(NotFound) ==> !r.wrote)
      && (r.wrote ==> PositionOf(list, id) < |list| && SizeOf(w', b) == list[PositionOf(list, id)].size)
    case Remove(b) => (r.answer.Ok? ==> r.wrote) && (r.wrote ==> b !in w'.disks)
    case _ => !r.wrote
  }

  function AllTuned(ops: seq<Op>, outcomes: seq<Outcome>): set<(Id, Knob)>
    requires |outcomes| == |ops|
  {
    if ops == [] then {}
    else AllTuned(ops[..|ops| - 1], outcomes[..|ops| - 1]) + Tuned(ops[|ops| - 1], outcomes[|ops| - 1])
  }

  lemma {:induction false} TunedIn(ops: seq<Op>, outcomes: seq<Outcome>, b: Id, k: Knob)
    requires |outcomes| == |ops|
    ensures (b, k) in AllTuned(ops, outcomes) <==> exists i :: 0 <= i < |ops| && (b, k) in Tuned(ops[i], outcomes[i])
  {
    hide Tuned;
    if ops != [] {
      var n := |ops| - 1;
      TunedIn(ops[..n], outcomes[..n], b, k);
      if i :| 0 <= i < |ops| && (b, k) in Tuned(ops[i], outcomes[i]) {
        if i < n { assert ops[..n][i] == ops[i] && outcomes[..n][i] == outcomes[i]; }
      }
      if i :| 0 <= i < n && (b, k) in Tuned(ops[..n][i], outcomes[..n][i]) {
        assert ops[i] == ops[..n][i] && outcomes[i] == outcomes[..n][i];
      }
    }
  }

  /** The operations that ask a BOX's sandbox for its statistics, and so may orphan one that
      does not answer. */
  predicate MayOrphan(op: Op, env: Env, b: Id) {
    && b !in env.answers
    && (op.List? || ((op.Get? || op.Start? || op.Use? || op.TakeCheckpoint? || op.Restore?) && op.b == b))
  }

  /** What one operation keeps, however it ended. */
  ghost predicate Ran(w: World, w': World, op: Op, env: Env, r: Outcome) {
    && Follows(w, w', Tuned(op, r)) && Written(w, w', op, r)
    && forall b: Id :: Orphaned(w', b) && !MayOrphan(op, env, b) ==> Orphaned(w, b)
  }

  lemma StepRan(w: World, w': World, op: Op, env: Env, r: Outcome, b: Id)
    requires Step(w, w', b) && Tuned(op, r) == {} && Written(w, w', op, r)
    requires MayOrphan(op, env, b) || (Orphaned(w', b) ==> Orphaned(w, b))
    ensures Ran(w, w', op, env, r)
  {
    StepFollows(w, w', b);
    TurnSpares(w, w', b);
    hide Step, Orphaned, Follows, Spares, Tuned;
  }

  lemma TurnRan(w: World, w': World, op: Op, env: Env, r: Outcome, b: Id)
    requires Turn(w, w', b) && Written(w, w', op, r) && (MayOrphan(op, env, b) || (Orphaned(w', b) ==> Orphaned(w, b)))
    requires forall k: Knob :: b in w.records && (b, k) !in Tuned(op, r) ==> KnobKept(w, w', b, k)
    ensures Ran(w, w', op, env, r)
  {
    TurnFollows(w, w', b, Tuned(op, r));
    TurnSpares(w, w', b);
    hide Turn, Orphaned, Follows, Spares, Tuned;
  }

  // ---- what an operation answers ----

  /** A restore gets as far as copying the checkpoint to the disk. */
  predicate Copies(w: World, b: Id, id: Id, env: Env) {
    && b in w.records && (IsRunning(w, b) ==> Stops(env, b)) && env.prepared && env.copied
    && PositionOf(KeptOf(w, b), id) < |KeptOf(w, b)|
  }

  /** When each operation succeeds, told by the state it finds and what the world answers. */
  ghost predicate Succeeds(w: World, c: Config, op: Op, env: Env) {
    match op
    case List => true
    case Create => true
    case Get(b) => b in w.records
    case ListCheckpoints(b) => b in w.records
    case DeleteCheckpoint(b, _) => b in w.records
    case Set(b, value) =>
      && b in w.records && !IsRunning(w, b)
      && Acceptable(w.records[b].settings, SizeOf(w, b), DetectCaps(c, env.host, SizeOf(w, b)), value)
      && (value.FsSizeMib? && value.n != SizeOf(w, b) ==> Resizes(env.tools, SizeOf(w, b), value.n))
    case Start(b) => b in w.records && !IsRunning(w, b) && !Attached(w.sessions, b) && Boots(env.boot)
    case Stop(b) => IsRunning(w, b) && Stops(env, b)
    case Remove(b) =>
      && b in w.records && (IsRunning(w, b) ==> Stops(env, b))
      && env.clearing.disk && env.clearing.list && env.clearing.record
    case Use(b) => IsRunning(w, b) && b in env.answers
    case TakeCheckpoint(b) => IsRunning(w, b) && b in env.answers && env.captured
    case Restore(b, id, _) => Copies(w, b, id, env) && (IsRunning(w, b) ==> Boots(env.boot))
    case Fork(b, id) =>
      b in w.records && PositionOf(KeptOf(w, b), id) < |KeptOf(w, b)| && env.prepared && env.copied
    case Shutdown => forall b :: b in w.active ==> Stops(env, b)
  }

  /** The status an operation leaves a BOX in, if it leaves it at all. */
  ghost function StatusAfter(w: World, op: Op, env: Env, b: Id): Status
    requires b in w.records
  {
    var now := w.records[b].status;
    match op
    case List => StatusRead(w, env, b)
    case Get(o) => if o == b then StatusRead(w, env, b) else now
    case Use(o) => if o == b then StatusRead(w, env, b) else now
    case TakeCheckpoint(o) => if o == b then StatusRead(w, env, b) else now
    case Start(o) =>
      if o != b || now == Running then now
      else if !Attached(w.sessions, b) && Boots(env.boot) && b in env.answers then Running else Failed
    case Stop(o) => if o == b then StatusHalted(w, env, b) else now
    case Remove(o) => if o != b then now else if now == Running && !Stops(env, b) then Failed else Removing
    case Restore(o, id, _) =>
      if o != b || now != Running then now
      else if !Stops(env, b) then Failed
      else if !Copies(w, b, id, env) then Stopped
      else if Boots(env.boot) && b in env.answers then Running else Failed
    case Shutdown => StatusHalted(w, env, b)
    case _ => now
  }

  /** Only a successful removal drops a record, and every status is as it should be; how far
      a failing shutdown got is left open. */
  ghost predicate Statuses(w: World, w': World, op: Op, env: Env, r: Outcome) {
    forall b :: b in w.records && !(op == Remove(b) && r.answer.Ok?) ==>
      && b in w'.records
      && (!(op.Shutdown? && r.answer.Err?) ==> w'.records[b].status == StatusAfter(w, op, env, b))
  }

  ghost predicate Exact(w: World, w': World, c: Config, op: Op, env: Env, r: Outcome) {
    (r.answer.Ok? <==> Succeeds(w, c, op, env)) && Statuses(w, w', op, env, r)
  }

  /** An operation on one BOX leaves the status of every other. */
  lemma StatusesAt(w: World, w': World, op: Op, env: Env, r: Outcome, b: Id)
    requires Turn(w, w', b) && !op.List? && !op.Shutdown? && (op.Create? || op.Fork? || op.b == b)
    requires op.Create? ==> b !in w.records
    requires b in w.records && !(op == Remove(b) && r.answer.Ok?) ==>
               b in w'.records && w'.records[b].status == StatusAfter(w, op, env, b)
    ensures Statuses(w, w', op, env, r)
  {
    OthersStay(w, w', b);
    hide Turn, Attached, Copies, Stops;
  }

  function Plain<T>(r: Result<T, Error>): Outcome {
    Outcome(if r.Ok? then Ok(()) else Err(r.error), false)
  }

  lemma StepDone(w: World, w': World, op: Op, env: Env, r: Outcome, b: Id)
    requires Step(w, w', b) && Tuned(op, r) == {} && !r.wrote && !op.Restore? && !op.Remove?
    requires MayOrphan(op, env, b) || (Orphaned(w', b) ==> Orphaned(w, b))
    requires !op.List? && !op.Shutdown? && (op.Create? || op.Fork? || op.b == b) && (op.Create? ==> b !in w.records)
    requires b in w.records ==> b in w'.records && w'.records[b].status == StatusAfter(w, op, env, b)
    ensures Ran(w, w', op, env, r) && Statuses(w, w', op, env, r)
  {
    StepRan(w, w', op, env, r, b);
    StepIsTurn(w, w', b);
    StatusesAt(w, w', op, env, r, b);
  }

  /** Reading all BOXes. */
  method PerformList(s: LocalBoxService, op: Op, env: Env) returns (r: Outcome)
    requires s.Valid() && op.List?
    modifies s, s.runtime, s.runtime.registry
    ensures s.Valid() && Ran(old(s.View()), s.View(), op, env, r)
    ensures Exact(old(s.View()), s.View(), s.config, op, env, r)
  {
    hide LocalBoxService.Valid, Step, Follows, Orphaned, StatusRead;
    var _ := s.ListBoxes(env);
    r := Outcome(Ok(()), false);
  }

  /** Reading, starting and using a BOX. */
  method PerformUse(s: LocalBoxService, op: Op, env: Env) returns (r: Outcome)
    requires s.Valid() && (op.Get? || op.Start? || op.Use?)
    modifies s, s.runtime, s.runtime.registry
    ensures s.Valid() && Ran(old(s.View()), s.View(), op, env, r)
    ensures Exact(old(s.View()), s.View(), s.config, op, env, r)
  {
    hide LocalBoxService.Valid, Step, Follows, Chosen, Attached, Reported, Statuses, Ran, Boots;
    ghost var w := s.View();
    match op {
      case Get(b) => var got := s.GetBox(b, env); r := Plain(got);
      case Start(b) => var got := s.StartBox(b, env); r := Plain(got);
      case Use(b) => var got := s.EnsureRuntime(b, env); r := Plain(got);
    }
    StepDone(w, s.View(), op, env, r, op.b);
  }

  /** Taking, listing and deleting checkpoints. */
  method PerformCheckpoint(s: LocalBoxService, op: Op, env: Env) returns (r: Outcome)
    requires s.Valid() && (op.TakeCheckpoint? || op.ListCheckpoints? || op.DeleteCheckpoint?)
    modifies s, s.runtime, s.runtime.registry
    ensures s.Valid() && Ran(old(s.View()), s.View(), op, env, r)
    ensures Exact(old(s.View()), s.View(), s.config, op, env, r)
  {
    hide LocalBoxService.Valid, Step, Follows, Orphaned, Without, Statuses, Ran;
    ghost var w := s.View();
    match op {
      case TakeCheckpoint(b) => var got := s.CheckpointCreate(b, env); r := Plain(got);
      case ListCheckpoints(b) => var got := s.CheckpointList(b, env.host); r := Plain(got);
      case DeleteCheckpoint(b, id) => var got := s.CheckpointDelete(b, id, env.host); r := Plain(got);
    }
    StepDone(w, s.View(), op, env, r, op.b);
  }

  /** Making a BOX and stopping one. */
  method PerformMake(s: LocalBoxService, op: Op, env: Env) returns (r: Outcome)
    requires s.Valid() && (op.Create? || op.Stop?)
    modifies s, s.runtime, s.runtime.registry
    ensures s.Valid() && Ran(old(s.View()), s.View(), op, env, r)
    ensures Exact(old(s.View()), s.View(), s.config, op, env, r)
  {
    ghost var w := s.View();
    hide LocalBoxService.Valid, Step, Follows, Orphaned, Chosen, Attached, Stops, Statuses, Ran, Reported;
    if op.Create? {
      var b := s.CreateBoxRecord(DefaultSettings, env.host);
      r := Outcome(Ok(()), false);
      StepDone(w, s.View(), op, env, r, b);
    } else {
      var got := s.StopBox(op.b, env);
      r := Plain(got);
      StepDone(w, s.View(), op, env, r, op.b);
    }
  }

  lemma FollowsKeeps(w: World, w': World)
    requires Follows(w, w', {})
    ensures forall b :: b in w.records ==> b in w'.records
  {
    forall b | b in w.records ensures b in w'.records {
      assert KnobKept(w, w', b, Cpu);
    }
  }

  /** Forking a BOX and shutting all down. */
  method PerformMany(s: LocalBoxService, op: Op, env: Env) returns (r: Outcome)
    requires s.Valid() && (op.Fork? || op.Shutdown?)
    modifies s, s.runtime, s.runtime.registry
    ensures s.Valid() && Ran(old(s.View()), s.View(), op, env, r)
    ensures Exact(old(s.View()), s.View(), s.config, op, env, r)
  {
    ghost var w := s.View();
    hide LocalBoxService.Valid, Follows, Orphaned, Chosen, PositionOf, Stops;
    if op.Fork? {
      var got := s.CheckpointFork(op.b, op.id, env);
      r := Plain(got);
    } else {
      var got := s.ShutdownDaemon(env);
      r := Plain(got);
    }
    FollowsKeeps(w, s.View());
  }

  /** An accepted setting moves its own knob; a refused one at most the disk. */
  method SetAndTell(s: LocalBoxService, b: Id, value: SettingValue, env: Env) returns (r: Outcome)
    requires s.Valid()
    modifies s, s.runtime, s.runtime.registry
    ensures s.Valid() && Turn(old(s.View()), s.View(), b) && (Orphaned(s.View(), b) <==> old(Orphaned(s.View(), b)))
    ensures Written(old(s.View()), s.View(), Set(b, value), r) && StatusKept(old(s.View()), s.View(), b)
    ensures forall k: Knob :: b in old(s.records) && (b, k) !in Tuned(Set(b, value), r) ==>
              KnobKept(old(s.View()), s.View(), b, k)
    ensures r.answer.Ok? <==> Succeeds(old(s.View()), s.config, Set(b, value), env)
  {
    ghost var w := s.View();
    hide LocalBoxService.Valid, Turn, Orphaned, Chosen, With, KnobKept, Resizes, LengthSet, Acceptable, DetectCaps;
    var size, tools := s.DiskSize(b), env.tools;
    var n := if value.FsSizeMib? then value.n else size;
    HalfwayIff(tools, size, n);
    var got := s.SetBoxSetting(b, value, env);
    r := Plain(got).(wrote := (got.Ok? || got.error.Backend?) && LengthSet(tools, size, n));
    if b in w.records { SettingKeepsKnobs(w, s.View(), b, value, got.Ok?); }
  }

  method PerformSet(s: LocalBoxService, op: Op, env: Env) returns (r: Outcome)
    requires s.Valid() && op.Set?
    modifies s, s.runtime, s.runtime.registry
    ensures s.Valid() && Ran(old(s.View()), s.View(), op, env, r)
    ensures Exact(old(s.View()), s.View(), s.config, op, env, r)
  {
    ghost var w := s.View();
    hide LocalBoxService.Valid, Turn, Orphaned, KnobKept, Succeeds, Statuses, Ran, Tuned, Written;
    r := SetAndTell(s, op.b, op.value, env);
    TurnRan(w, s.View(), op, env, r, op.b);
    StatusesAt(w, s.View(), op, env, r, op.b);
  }

  lemma RemoveTunesAll(op: Op, k: Knob)
    requires op.Remove?
    ensures (op.b, k) in Tuned(op, Outcome(Ok(()), true))
  {}

  method PerformRemove(s: LocalBoxService, op: Op, env: Env) returns (r: Outcome)
    requires s.Valid() && op.Remove?
    modifies s, s.runtime, s.runtime.registry
    ensures s.Valid() && Ran(old(s.View()), s.View(), op, env, r)
    ensures Exact(old(s.View()), s.View(), s.config, op, env, r)
  {
    ghost var w := s.View();
    hide LocalBoxService.Valid, Turn, Orphaned, Chosen, KnobKept;
    var got, wrote := s.RemoveBox(op.b, env);
    r := Outcome(got, wrote);
    if op.b in w.records && got.Err? { ChoiceKeepsKnobs(w, s.View(), op.b); }
    if got.Ok? { forall k: Knob ensures (op.b, k) in Tuned(op, r) { RemoveTunesAll(op, k); } }
    TurnRan(w, s.View(), op, env, r, op.b);
    StatusesAt(w, s.View(), op, env, r, op.b);
  }

  method PerformRestore(s: LocalBoxService, op: Op, env: Env) returns (r: Outcome)
    requires s.Valid() && op.Restore?
    modifies s, s.runtime, s.runtime.registry
    ensures s.Valid() && Ran(old(s.View()), s.View(), op, env, r)
    ensures Exact(old(s.View()), s.View(), s.config, op, env, r)
  {
    ghost var w := s.View();
    hide LocalBoxService.Valid, Turn, Orphaned, Chosen, KnobKept, PositionOf;
    var got, wrote := s.CheckpointRestore(op.b, op.id, op.mode, env);
    r := Outcome(got, wrote);
    if op.b in w.records { ChoiceKeepsKnobs(w, s.View(), op.b); }
    TurnRan(w, s.View(), op, env, r, op.b);
    StatusesAt(w, s.View(), op, env, r, op.b);
  }

  /** One operation, whatever its outcome. */
  method Perform(s: LocalBoxService, op: Op, env: Env) returns (r: Outcome)
    requires s.Valid()
    modifies s, s.runtime, s.runtime.registry
    ensures s.Valid() && Ran(old(s.View()), s.View(), op, env, r)
    ensures Exact(old(s.View()), s.View(), s.config, op, env, r)
  {
    hide *;
    match op {
      case Set(_, _) => r := PerformSet(s, op, env);
      case Remove(_) => r := PerformRemove(s, op, env);
      case Restore(_, _, _) => r := PerformRestore(s, op, env);
      case Create => r := PerformMake(s, op, env);
      case Stop(_) => r := PerformMake(s, op, env);
      case Fork(_, _) => r := PerformMany(s, op, env);
      case Shutdown => r := PerformMany(s, op, env);
      case TakeCheckpoint(_) => r := PerformCheckpoint(s, op, env);
      case ListCheckpoints(_) => r := PerformCheckpoint(s, op, env);
      case DeleteCheckpoint(_, _) => r := PerformCheckpoint(s, op, env);
      case List => r := PerformList(s, op, env);
      case _ => r := PerformUse(s, op, env);
    }
  }

  /** A BOX that is an orphan at the end was one at the start, or an operation of the run
      asked for its statistics and got no answer. */
  ghost predicate OrphansExplained(w: World, w': World, ops: seq<Op>, envs: seq<Env>) {
    && |envs| == |ops|
    && forall b: Id :: Orphaned(w', b) ==>
         Orphaned(w, b) || exists i :: 0 <= i < |ops| && MayOrphan(ops[i], envs[i], b)
  }

  lemma NothingExplained(w: World)
    ensures OrphansExplained(w, w, [], [])
  {}

  lemma ExplainedOn(w: World, v: World, w': World, ops: seq<Op>, envs: seq<Env>, op: Op, env: Env, r: Outcome)
    requires OrphansExplained(w, v, ops, envs) && Ran(v, w', op, env, r)
    ensures OrphansExplained(w, w', ops + [op], envs + [env])
  {
    hide Orphaned, Follows, Tuned, Written, MayOrphan;
    var all, found := ops + [op], envs + [env];
    forall b: Id | Orphaned(w', b) && !Orphaned(w, b)
      ensures exists i :: 0 <= i < |all| && MayOrphan(all[i], found[i], b)
    {
      if MayOrphan(op, env, b) {
        assert all[|ops|] == op && found[|ops|] == env;
      } else {
        var i :| 0 <= i < |ops| && MayOrphan(ops[i], envs[i], b);
        assert all[i] == ops[i] && found[i] == envs[i];
      }
    }
  }

  /** Every run keeps the joint invariant; every policy sent was launchable; an orphan
      stays one and every new one is explained; a value moves only where it is tuned. */
  method Replay(s: LocalBoxService, ops: seq<Op>, envs: seq<Env>) returns (outcomes: seq<Outcome>)
    requires s.Valid() && |envs| == |ops|
    modifies s, s.runtime, s.runtime.registry
    ensures s.Valid() && AllLaunchable(s.runtime.requested, s.config.secure)
    ensures |outcomes| == |ops| && Follows(old(s.View()), s.View(), AllTuned(ops, outcomes))
    ensures OrphansExplained(old(s.View()), s.View(), ops, envs)
  {
    ghost var w0 := s.View();
    NothingFollows(w0);
    NothingExplained(w0);
    outcomes := [];
    assert ops[..0] == [] && envs[..0] == [];
    hide Invariant, Follows, Tuned, OrphansExplained, AllLaunchable, Written;
    for k := 0 to |ops|
      invariant s.Valid() && |outcomes| == k && Follows(w0, s.View(), AllTuned(ops[..k], outcomes))
      invariant OrphansExplained(w0, s.View(), ops[..k], envs[..k])
    {
      ghost var w, before := s.View(), outcomes;
      var r := Perform(s, ops[k], envs[k]);
      outcomes := outcomes + [r];
      FollowsTransitive(w0, w, s.View(), AllTuned(ops[..k], before), Tuned(ops[k], r));
      ExplainedOn(w0, w, s.View(), ops[..k], envs[..k], ops[k], envs[k], r);
      assert ops[..k + 1][..k] == ops[..k] && ops[..k] + [ops[k]] == ops[..k + 1] && outcomes[..k] == before;
      assert envs[..k] + [envs[k]] == envs[..k + 1];
    }
    assert ops[..|ops|] == ops && envs[..|envs|] == envs;
  }

  /** An accepted setting is read back after any run in which the same setting of the BOX
      was not accepted again and the BOX was not removed; for the disk size, in which
      nothing else wrote the disk either. */
  method AcceptedIsReadBack(s: LocalBoxService, b: Id, value: SettingValue, env: Env, ops: seq<Op>, envs: seq<Env>)
    returns (accepted: Result<BoxRecord, Error>, outcomes: seq<Outcome>, back: Result<BoxRecord, Error>)
    requires s.Valid() && |envs| == |ops|
    modifies s, s.runtime, s.runtime.registry
    ensures s.Valid() && |outcomes| == |ops|
    ensures accepted.Ok? && (b, KnobOf(value)) !in AllTuned(ops, outcomes) ==>
              back.Ok? && Reads(back.value.settings, value)
  {
    hide LocalBoxService.Valid, LocalBoxService.Ready, Turn, Orphaned, Attached, Step, AllTuned, KnobKept,
         OrphansExplained;
    accepted := s.SetBoxSetting(b, value, env);
    ghost var w := s.View();
    outcomes := Replay(s, ops, envs);
    ghost var v := s.View();
    back := s.GetBox(b, env);
    if accepted.Ok? && (b, KnobOf(value)) !in AllTuned(ops, outcomes) {
      assert KnobKept(w, v, b, KnobOf(value));
      KnobKeepsBox(w, v, b, KnobOf(value));
      ReadsOn(w, v, s.View(), b, value);
    }
  }

  lemma ReadsOn(w: World, v: World, w': World, b: Id, value: SettingValue)
    requires b in w.records && Reads(w.records[b].settings, value) && (value.FsSizeMib? ==> SizeOf(w, b) == value.n)
    requires KnobKept(w, v, b, KnobOf(value)) && Step(v, w', b) && b in w'.records
    requires w'.records[b].settings.fsSizeMib.current == SizeOf(w', b)
    ensures Reads(w'.records[b].settings, value)
  {
    StepIsTurn(v, w', b);
  }

  /** A refused size is read back all the same exactly when the resize failed after the
      length of the disk's file was set. */
  method RefusedIsReadBackIff(s: LocalBoxService, b: Id, n: nat, env: Env, ops: seq<Op>, envs: seq<Env>)
    returns (refused: Result<BoxRecord, Error>, outcomes: seq<Outcome>, back: Result<BoxRecord, Error>)
    requires s.Valid() && |envs| == |ops|
    modifies s, s.runtime, s.runtime.registry
    ensures s.Valid() && |outcomes| == |ops|
    ensures refused.Err? && b in old(s.records) && (b, Disk) !in AllTuned(ops, outcomes) ==>
              && back.Ok?
              && (Reads(back.value.settings, FsSizeMib(n)) <==>
                    n == old(s.DiskSize(b)) || (refused.error.Backend? && LengthSet(env.tools, old(s.DiskSize(b)), n)))
              && (!Reads(back.value.settings, FsSizeMib(n)) ==>
                    Reads(back.value.settings, FsSizeMib(old(s.DiskSize(b)))))
  {
    hide LocalBoxService.Valid, LocalBoxService.Ready, Turn, Orphaned, Attached, Step, AllTuned, KnobKept,
         OrphansExplained, LengthSet, Resizes;
    refused := s.SetBoxSetting(b, FsSizeMib(n), env);
    ghost var w := s.View();
    outcomes := Replay(s, ops, envs);
    ghost var v := s.View();
    back := s.GetBox(b, env);
    if refused.Err? && b in w.records && (b, Disk) !in AllTuned(ops, outcomes) {
      assert KnobKept(w, v, b, Disk);
      KnobKeepsBox(w, v, b, Disk);
      SizeOn(w, v, s.View(), b);
    }
  }

  lemma SizeOn(w: World, v: World, w': World, b: Id)
    requires b in w.records && KnobKept(w, v, b, Disk) && Step(v, w', b)
    ensures SizeOf(w', b) == SizeOf(w, b)
  {
    StepIsTurn(v, w', b);
  }

  /** Any disk that can shrink shows it: when only the last check fails, the request is
      answered with an error and the size asked for is what is read back. */
  method RefusedShrink(s: LocalBoxService, b: Id, n: nat, env: Env)
    returns (refused: Result<BoxRecord, Error>, back: Result<BoxRecord, Error>)
    requires s.Valid() && b in s.records && !IsRunning(s.View(), b) && 64 <= n < s.DiskSize(b)
    modifies s, s.runtime, s.runtime.registry
    ensures s.Valid() && refused.Err? && back.Ok? && Reads(back.value.settings, FsSizeMib(n))
  {
    hide LocalBoxService.Valid, LocalBoxService.Ready, Turn, Orphaned, Attached, Step;
    SmallerAccepted(s.records[b].settings, s.DiskSize(b), DetectCaps(s.config, env.host, s.DiskSize(b)), n);
    hide Acceptable;
    refused := s.SetBoxSetting(b, FsSizeMib(n), env.(tools := Tools(true, true, true, true, false)));
    ghost var w := s.View();
    back := s.GetBox(b, env);
    StepIsTurn(w, s.View(), b);
  }

  /** A BOX whose sandbox was left with the runtime cannot be started any more, after
      any run of this daemon. */
  method OrphanNeverStarts(s: LocalBoxService, b: Id, ops: seq<Op>, envs: seq<Env>, env: Env)
    returns (r: Result<BoxRecord, Error>)
    requires s.Valid() && Orphaned(s.View(), b) && |envs| == |ops|
    modifies s, s.runtime, s.runtime.registry
    ensures s.Valid() && r.Err? && Orphaned(s.View(), b)
  {
    ghost var w := s.View();
    hide LocalBoxService.Valid, LocalBoxService.Ready, Only, KnobKept, Orphaned, AllTuned, OrphansExplained;
    var _ := Replay(s, ops, envs);
    r := s.StartBox(b, env);
  }
}
