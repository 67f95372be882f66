/** BOX records, the map of active sandboxes and the runtime's sessions as one state,
    and what every operation on it keeps. */
module Boxes {
  import opened Wrappers
  import opened Settings
  import opened Registry

  datatype Status = Created | Running | Stopped | Failed | Removing

  datatype BoxRecord = BoxRecord(status: Status, settings: BoxSettings, sandbox: Option<Id>)

  /** A checkpoint is known here by its id and the size of its copy of the disk. */
  datatype Checkpoint = Checkpoint(id: Id, size: nat)

  /** Disks are known by their size in MiB; a missing one would be made with the default. */
  datatype World = World(records: map<Id, BoxRecord>, active: map<Id, Id>, disks: map<Id, nat>,
                         kept: map<Id, seq<Checkpoint>>, sessions: map<Id, Session>, issued: nat, defaultMib: nat)

  predicate IsRunning(w: World, b: Id) {
    b in w.records && w.records[b].status == Running
  }

  function SizeOf(w: World, b: Id): nat {
    if b in w.disks then w.disks[b] else w.defaultMib
  }

  /** The active map holds exactly the running BOXes, each with the sandbox its record
      names, which the runtime holds for that BOX's workspace. */
  ghost predicate Healthy(w: World, b: Id) {
    && (b in w.active <==> IsRunning(w, b))
    && (b in w.active ==>
          && w.records[b].sandbox == Some(w.active[b])
          && w.active[b] in w.sessions && w.sessions[w.active[b]].workspace == b)
  }

  /** What a BOX's own record, disk and checkpoints satisfy. */
  ghost predicate Proper(w: World, secure: bool, b: Id) {
    && (b in w.records ==> b < w.issued && InLimits(w.records[b].settings, secure))
    && (b in w.disks ==> w.disks[b] >= 64)
    && (b in w.kept ==> b < w.issued && BigEnough(w.kept[b]))
  }

  ghost predicate BigEnough(list: seq<Checkpoint>) {
    forall i :: 0 <= i < |list| ==> list[i].size >= 64
  }

  ghost predicate Base(w: World, secure: bool) {
    && w.defaultMib >= 64
    && (forall b: Id :: Proper(w, secure, b))
    && (forall id :: id in w.sessions ==> w.sessions[id].workspace < w.issued)
  }

  ghost predicate InvariantBut(w: World, secure: bool, skip: Id) {
    Base(w, secure) && forall b: Id :: b != skip ==> Healthy(w, b)
  }

  ghost predicate Invariant(w: World, secure: bool) {
    Base(w, secure) && forall b: Id :: Healthy(w, b)
  }

  /** Two running BOXes never share a sandbox. */
  lemma {:induction false} DistinctSandboxes(w: World, secure: bool, a: Id, b: Id)
    requires Invariant(w, secure) && IsRunning(w, a) && IsRunning(w, b) && a != b
    ensures w.records[a].sandbox.Some? && w.records[b].sandbox.Some?
    ensures w.records[a].sandbox != w.records[b].sandbox
  {
    assert Healthy(w, a) && Healthy(w, b);
  }

  // ---- how one operation changes the world ----

  /** Sessions of other workspaces stay as they are. */
  ghost predicate SessionsElsewhere(s: map<Id, Session>, s': map<Id, Session>, b: Id) {
    && (forall id :: id in s && s[id].workspace != b ==> id in s' && s'[id] == s[id])
    && (forall id :: id in s' && s'[id].workspace != b ==> id in s && s[id] == s'[id])
  }

  /** Nothing but one BOX has changed. */
  ghost predicate Only(w: World, w': World, b: Id) {
    && w'.records - {b} == w.records - {b}
    && w'.active - {b} == w.active - {b}
    && w'.disks - {b} == w.disks - {b}
    && w'.kept - {b} == w.kept - {b}
    && w.issued <= w'.issued && w'.defaultMib == w.defaultMib
    && SessionsElsewhere(w.sessions, w'.sessions, b)
  }

  lemma OnlyTransitive(w: World, v: World, w': World, b: Id)
    requires Only(w, v, b) && Only(v, w', b)
    ensures Only(w, w', b)
  {}

  /** Any other BOX looks the same. */
  lemma Elsewhere(w: World, w': World, b: Id, o: Id)
    requires Only(w, w', b) && o != b
    ensures o in w'.records <==> o in w.records
    ensures o in w.records ==> w'.records[o] == w.records[o]
    ensures o in w'.active <==> o in w.active
    ensures o in w.active ==> w'.active[o] == w.active[o]
    ensures o in w'.disks <==> o in w.disks
    ensures o in w.disks ==> w'.disks[o] == w.disks[o]
    ensures o in w'.kept <==> o in w.kept
    ensures o in w.kept ==> w'.kept[o] == w.kept[o]
    ensures Attached(w'.sessions, o) <==> Attached(w.sessions, o)
  {
    assert o in w.records <==> o in w.records - {b};
    assert o in w'.records <==> o in w'.records - {b};
    assert o in w.active <==> o in w.active - {b};
    assert o in w'.active <==> o in w'.active - {b};
    assert o in w.disks <==> o in w.disks - {b};
    assert o in w'.disks <==> o in w'.disks - {b};
    assert o in w.kept <==> o in w.kept - {b};
    assert o in w'.kept <==> o in w'.kept - {b};
  }

  /** A BOX that is not running while the runtime still holds a sandbox for it. */
  ghost predicate Orphaned(w: World, b: Id) {
    !IsRunning(w, b) && Attached(w.sessions, b)
  }

  /** What a user can set. */
  datatype Knob = Cpu | Memory | Processes | Net | Disk

  ghost predicate KnobKept(w: World, w': World, b: Id, k: Knob)
    requires b in w.records
  {
    && b in w'.records
    && var s, s' := w.records[b].settings, w'.records[b].settings;
    match k
    case Cpu => s'.cpuCores.current == s.cpuCores.current
    case Memory => s'.memoryMb.current == s.memoryMb.current
    case Processes => s'.maxProcesses.current == s.maxProcesses.current
    case Net => s'.networkEnabled.current == s.networkEnabled.current
    case Disk => SizeOf(w', b) == SizeOf(w, b)
  }

  /** What a user chose for a BOX, and its disk, are as they were. */
  ghost predicate ChoiceKept(w: World, w': World, b: Id)
    requires b in w.records
  {
    b in w'.records && Chosen(w'.records[b].settings) == Chosen(w.records[b].settings) && SizeOf(w', b) == SizeOf(w, b)
  }

  /** One BOX changed, and if it was an orphan it still is. */
  ghost predicate Turn(w: World, w': World, b: Id) {
    Only(w, w', b) && (Orphaned(w, b) ==> Orphaned(w', b))
  }

  /** A turn that leaves choices alone. */
  ghost predicate Step(w: World, w': World, b: Id) {
    Turn(w, w', b) && (b in w.records ==> ChoiceKept(w, w', b))
  }

  lemma TurnTransitive(w: World, v: World, w': World, b: Id)
    requires Turn(w, v, b) && Turn(v, w', b)
    ensures Turn(w, w', b)
  {
    OnlyTransitive(w, v, w', b);
    hide Only, Orphaned;
  }

  lemma StepTransitive(w: World, v: World, w': World, b: Id)
    requires Step(w, v, b) && Step(v, w', b)
    ensures Step(w, w', b)
  {
    TurnTransitive(w, v, w', b);
    hide Turn, Chosen;
  }

  lemma NoStep(w: World, b: Id)
    ensures Step(w, w, b)
  {}

  lemma StepIsTurn(w: World, w': World, b: Id)
    requires Step(w, w', b)
    ensures Turn(w, w', b)
    ensures b in w.records ==> b in w'.records && Chosen(w'.records[b].settings) == Chosen(w.records[b].settings)
    ensures b in w.records ==> SizeOf(w', b) == SizeOf(w, b)
  {}

  // ---- whole runs ----

  /** What holds between the start and the end of any run: orphans stay orphans, and a
      value moves only where that very knob was tuned. */
  ghost predicate Follows(w: World, w': World, tuned: set<(Id, Knob)>) {
    && w.issued <= w'.issued
    && (forall b: Id :: Orphaned(w, b) ==> Orphaned(w', b))
    && (forall b: Id, k: Knob :: b in w.records && (b, k) !in tuned ==> KnobKept(w, w', b, k))
  }

  lemma KnobTransitive(w: World, v: World, w': World, b: Id, k: Knob)
    requires b in w.records && KnobKept(w, v, b, k) && KnobKept(v, w', b, k)
    ensures KnobKept(w, w', b, k)
  {}

  lemma {:induction false} FollowsTransitive(w: World, v: World, w': World, s: set<(Id, Knob)>, t: set<(Id, Knob)>)
    requires Follows(w, v, s) && Follows(v, w', t)
    ensures Follows(w, w', s + t)
  {
    hide Orphaned, KnobKept;
    forall b: Id, k: Knob | b in w.records && (b, k) !in s + t ensures KnobKept(w, w', b, k) {
      assert KnobKept(w, v, b, k);
      KnobKeepsBox(w, v, b, k);
      KnobTransitive(w, v, w', b, k);
    }
  }

  lemma KnobKeepsBox(w: World, w': World, b: Id, k: Knob)
    requires b in w.records && KnobKept(w, w', b, k)
    ensures b in w'.records
  {}

  /** A turn is a run in which the BOX's knobs that moved were tuned. */
  lemma {:induction false} TurnFollows(w: World, w': World, b: Id, tuned: set<(Id, Knob)>)
    requires Turn(w, w', b)
    requires forall k: Knob :: b in w.records && (b, k) !in tuned ==> KnobKept(w, w', b, k)
    ensures Follows(w, w', tuned)
  {
    assert w.issued <= w'.issued;
    hide Only, Orphaned;
    forall o: Id | o != b ensures Orphaned(w, o) ==> Orphaned(w', o) { OrphanElsewhere(w, w', b, o); }
    forall o: Id, k: Knob | o in w.records && (o, k) !in tuned ensures KnobKept(w, w', o, k) {
      if o != b { KnobElsewhere(w, w', b, o, k); }
    }
  }

  lemma OrphanElsewhere(w: World, w': World, b: Id, o: Id)
    requires Only(w, w', b) && o != b
    ensures Orphaned(w, o) <==> Orphaned(w', o)
  {
    Elsewhere(w, w', b, o);
    hide Only, Attached;
  }

  lemma KnobElsewhere(w: World, w': World, b: Id, o: Id, k: Knob)
    requires Only(w, w', b) && o != b && o in w.records
    ensures KnobKept(w, w', o, k)
  {
    Elsewhere(w, w', b, o);
    assert w'.defaultMib == w.defaultMib;
    hide Only, Attached;
  }

  lemma ChoiceKeepsKnobs(w: World, w': World, b: Id)
    requires b in w.records && b in w'.records && Chosen(w'.records[b].settings) == Chosen(w.records[b].settings)
    ensures forall k: Knob :: k != Disk || SizeOf(w', b) == SizeOf(w, b) ==> KnobKept(w, w', b, k)
  {}

  /** A step follows without any tuning. */
  lemma StepFollows(w: World, w': World, b: Id)
    requires Step(w, w', b)
    ensures Follows(w, w', {})
  {
    if b in w.records { ChoiceKeepsKnobs(w, w', b); }
    TurnFollows(w, w', b, {});
  }

  lemma NothingFollows(w: World)
    ensures Follows(w, w, {})
  {}

  lemma FollowsOn(w: World, v: World, w': World)
    requires Follows(w, v, {}) && Follows(v, w', {})
    ensures Follows(w, w', {})
  {
    hide Follows;
    var none: set<(Id, Knob)> := {};
    FollowsTransitive(w, v, w', none, none);
    assert none + none == none;
  }

  /** No BOX that was not an orphan has become one. */
  ghost predicate Spares(w: World, w': World) {
    forall b: Id :: Orphaned(w', b) ==> Orphaned(w, b)
  }

  lemma TurnSpares(w: World, w': World, b: Id)
    requires Only(w, w', b)
    ensures forall o: Id :: o != b && Orphaned(w', o) ==> Orphaned(w, o)
    ensures (Orphaned(w', b) ==> Orphaned(w, b)) ==> Spares(w, w')
  {
    hide Orphaned, Only;
    forall o: Id | o != b ensures Orphaned(w, o) <==> Orphaned(w', o) { OrphanElsewhere(w, w', b, o); }
  }

  /** What one BOX's change leaves to be checked is that BOX alone. */
  lemma {:induction false} OthersHealthy(w: World, w': World, secure: bool, b: Id)
    requires InvariantBut(w, secure, b) && Only(w, w', b) && b < w'.issued && Proper(w', secure, b)
    ensures InvariantBut(w', secure, b)
    ensures Healthy(w', b) ==> Invariant(w', secure)
  {
    forall o: Id | o != b ensures Healthy(w', o) && Proper(w', secure, o) {
      assert Healthy(w, o) && Proper(w, secure, o);
      HealthyElsewhere(w, w', secure, b, o);
    }
    hide Healthy, Proper;
  }

  lemma HealthyElsewhere(w: World, w': World, secure: bool, b: Id, o: Id)
    requires Only(w, w', b) && o != b && Healthy(w, o) && Proper(w, secure, o)
    ensures Healthy(w', o) && Proper(w', secure, o)
  {
    Elsewhere(w, w', b, o);
    hide InLimits, Attached, BigEnough;
  }
}
