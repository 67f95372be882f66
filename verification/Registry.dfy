/** The session registry of the sandbox runtime and the operations that create and
    destroy sandboxes in it.  Backend, guest and file-system outcomes are arbitrary. */
module Registry {
  import opened Wrappers
  import opened Settings

  /** Identifiers are drawn fresh; a run directory is named by the identifier of the
      sandbox it was made for, a workspace by the identifier of its BOX. */
  type Id = nat

  datatype Session = Session(workspace: Id, run: Id)

  datatype SessionRecord = SessionRecord(sandbox: Id, workspace: Id, endedAt: int, changes: seq<string>)

  datatype Error = Unknown | Invalid | Conflict | NotFound | Backend(saysUnknown: bool)

  /** `missing_runtime_session`: errors whose message speaks of an unknown sandbox. */
  predicate MissingSession(e: Error) {
    e.Unknown? || (e.Backend? && e.saysUnknown)
  }

  datatype Sessions = Sessions(active: map<Id, Session>, history: map<Id, SessionRecord>, warm: seq<Id>)

  ghost predicate Attached(active: map<Id, Session>, workspace: Id) {
    exists id :: id in active && active[id].workspace == workspace
  }

  ghost predicate OnePerWorkspace(active: map<Id, Session>) {
    forall a, b :: a in active && b in active && active[a].workspace == active[b].workspace ==> a == b
  }

  /** Issued identifiers, each active or in history but not both; at most one active
      sandbox per workspace; pooled run directories distinct, of destroyed sandboxes. */
  ghost predicate Sound(s: Sessions, issued: nat, poolSize: nat) {
    && (forall id :: id in s.active ==> id < issued && s.active[id].run == id)
    && (forall id :: id in s.history ==> id < issued && s.history[id].sandbox == id && id !in s.active)
    && OnePerWorkspace(s.active)
    && |s.warm| <= poolSize
    && (forall i :: 0 <= i < |s.warm| ==> s.warm[i] in s.history)
    && (forall i, j :: 0 <= i < j < |s.warm| ==> s.warm[i] != s.warm[j])
  }

  /** No run directory is used twice, by active sandboxes and pool together. */
  lemma {:induction false} RunsAreExclusive(s: Sessions, issued: nat, poolSize: nat)
    requires Sound(s, issued, poolSize)
    ensures forall a, b :: a in s.active && b in s.active && s.active[a].run == s.active[b].run ==> a == b
    ensures forall a, i :: a in s.active && 0 <= i < |s.warm| ==> s.active[a].run != s.warm[i]
  {
    forall a, i | a in s.active && 0 <= i < |s.warm| ensures s.active[a].run != s.warm[i] {
      assert s.warm[i] in s.history;
    }
  }

  /** The youngest entries, at most so many. */
  function Newest(runs: seq<Id>, size: nat): (r: seq<Id>)
    ensures |r| == (if |runs| <= size then |runs| else size) && r == runs[|runs| - |r|..]
  {
    if |runs| <= size then runs else runs[|runs| - size..]
  }

  /** What is left when the youngest run has been taken. */
  function Popped(runs: seq<Id>): seq<Id> { if runs == [] then [] else runs[..|runs| - 1] }

  class SessionRegistry {
    var active: map<Id, Session>
    var history: map<Id, SessionRecord>
    var warm: seq<Id>

    constructor ()
      ensures View() == Sessions(map[], map[], [])
    {
      active, history, warm := map[], map[], [];
    }

    function View(): Sessions reads this { Sessions(active, history, warm) }

    method Insert(id: Id, session: Session)
      modifies this`active
      ensures active == old(active)[id := session]
    {
      active := active[id := session];
    }

    method RemoveActive(id: Id) returns (r: Result<Session, Error>)
      modifies this`active
      ensures if id in old(active) then r == Ok(old(active)[id]) && active == old(active) - {id}
              else r == Err(Unknown) && active == old(active)
    {
      if id !in active { return Err(Unknown); }
      r := Ok(active[id]);
      active := active - {id};
    }

    method HasActiveWorkspace(workspace: Id) returns (found: bool)
      ensures found <==> Attached(active, workspace)
    {
      var rest := active.Keys;
      while rest != {}
        invariant rest <= active.Keys
        invariant forall id :: id in active && active[id].workspace == workspace ==> id in rest
        decreases rest
      {
        var id :| id in rest;
        if active[id].workspace == workspace { return true; }
        rest := rest - {id};
      }
      found := false;
    }

    method SaveHistory(record: SessionRecord)
      modifies this`history
      ensures history == old(history)[record.sandbox := record]
    {
      history := history[record.sandbox := record];
    }

    method TakeWarmRun() returns (run: Option<Id>)
      modifies this`warm
      ensures if old(warm) == [] then run == None && warm == []
              else run.Some? && warm + [run.value] == old(warm)
    {
      if warm == [] { return None; }
      run, warm := Some(warm[|warm| - 1]), warm[..|warm| - 1];
    }

    /** The oldest runs are evicted until the pool fits. */
    method StoreWarmRun(run: Id, poolSize: nat)
      modifies this`warm
      ensures warm == Newest(old(warm) + [run], poolSize)
    {
      warm := warm + [run];
      ghost var all := warm;
      while |warm| > poolSize
        invariant |warm| <= |all| && warm == all[|all| - |warm|..]
        invariant |warm| == |all| || |warm| >= poolSize
      {
        warm := warm[1..];
      }
    }
  }

  // ---- what creating and destroying keep ----

  lemma CreateSound(s: Sessions, s': Sessions, issued: nat, poolSize: nat, workspace: Id)
    requires Sound(s, issued, poolSize) && !Attached(s.active, workspace)
    requires s' == s.(active := s.active[issued := Session(workspace, issued)], warm := s'.warm) && s'.warm <= s.warm
    ensures Sound(s', issued + 1, poolSize)
  {
    assert forall i :: 0 <= i < |s'.warm| ==> s'.warm[i] == s.warm[i];
    assert forall id :: id in s.active ==> s.active[id].workspace != workspace;
  }

  lemma DestroySound(s: Sessions, s': Sessions, issued: nat, poolSize: nat, record: SessionRecord)
    requires Sound(s, issued, poolSize) && record.sandbox in s.active
    requires s' == Sessions(s.active - {record.sandbox}, s.history[record.sandbox := record],
                            Newest(s.warm + [record.sandbox], poolSize))
    ensures Sound(s', issued, poolSize)
  {
    hide Newest;
    var all := s.warm + [record.sandbox];
    forall i | 0 <= i < |all| ensures all[i] in s'.history {
      if i < |s.warm| { assert all[i] == s.warm[i]; }
    }
    forall i, j | 0 <= i < j < |all| ensures all[i] != all[j] {
      assert all[i] == s.warm[i] && all[i] in s.history;
    }
    NewestKeeps(all, s'.warm, s'.history);
  }

  /** The end of a list of distinct runs is one. */
  lemma NewestKeeps(all: seq<Id>, newest: seq<Id>, history: map<Id, SessionRecord>)
    requires |newest| <= |all| && newest == all[|all| - |newest|..]
    requires forall i :: 0 <= i < |all| ==> all[i] in history
    requires forall i, j :: 0 <= i < j < |all| ==> all[i] != all[j]
    ensures forall i :: 0 <= i < |newest| ==> newest[i] in history
    ensures forall i, j :: 0 <= i < j < |newest| ==> newest[i] != newest[j]
  {
    var off := |all| - |newest|;
    assert forall i :: 0 <= i < |newest| ==> newest[i] == all[off + i];
  }

  /** Which steps of a launch succeed: preparing the workspace and the image, laying out a
      run directory, and booting until the guest has answered. */
  datatype Boot = Boot(prepared: bool, laidOut: bool, booted: bool)

  predicate Boots(boot: Boot) { boot.prepared && boot.laidOut && boot.booted }

  /** `says` tells whether the text of a failure speaks of an unknown sandbox. */
  datatype Call =
    | CreateCall(workspace: Id, policy: Policy, boot: Boot, says: bool)
    | DestroyCall(id: Id, shut: bool, says: bool)

  class AgentSandboxService {
    const registry: SessionRegistry
    const secure: bool
    const poolSize: nat
    /** Identifiers below this one have been drawn. */
    var issued: nat
    /** Policies this service was asked to run a sandbox under. */
    ghost var requested: seq<Policy>
    /** Destroys that failed with something else than an unknown sandbox. */
    ghost var failures: nat

    ghost predicate Valid() reads this, registry {
      Sound(registry.View(), issued, poolSize)
    }

    constructor (secure: bool, poolSize: nat)
      ensures Valid() && fresh(registry) && this.secure == secure && this.poolSize == poolSize && requested == []
                && failures == 0
      ensures registry.View() == Sessions(map[], map[], [])
    {
      this.secure, this.poolSize, issued, requested, failures := secure, poolSize, 0, [], 0;
      registry := new SessionRegistry();
    }

    /** `Uuid::new_v4`. */
    method FreshId() returns (id: Id)
      modifies this`issued
      ensures id == old(issued) && issued == id + 1
    {
      id := issued;
      issued := issued + 1;
    }

    /** Fails exactly when the request is refused or a step of the launch fails; only
        success registers a sandbox, under an identifier never used before. */
    method CreateSandbox(workspace: Id, policy: Policy, boot: Boot, says: bool) returns (r: Result<Id, Error>)
      requires Valid()
      modifies this`issued, this`requested, registry
      ensures Valid() && requested == old(requested) + [policy] && registry.history == old(registry.history)
      ensures var begins := !Attached(old(registry.active), workspace) && !(secure && policy.networkEnabled)
                            && boot.prepared;
              && registry.warm == (if begins then Popped(old(registry.warm)) else old(registry.warm))
              && issued == old(issued) + if begins then 1 else 0
      ensures r.Ok? ==> r.value == old(issued) < issued
                        && registry.active == old(registry.active)[r.value := Session(workspace, r.value)]
      ensures r.Err? ==> registry.active == old(registry.active)
      ensures if Attached(old(registry.active), workspace) || (secure && policy.networkEnabled) then r == Err(Invalid)
              else if Boots(boot) then r.Ok? else r == Err(Backend(says))
    {
      ghost var before, drawn := registry.View(), issued;
      requested := requested + [policy];
      if secure && policy.networkEnabled { return Err(Invalid); }
      var taken := registry.HasActiveWorkspace(workspace);
      if taken { return Err(Invalid); }
      if !boot.prepared { return Err(Backend(says)); }
      var _ := registry.TakeWarmRun();
      var id := FreshId();
      ShorterPool(before, registry.View(), drawn, poolSize);
      if !boot.laidOut || !boot.booted { return Err(Backend(says)); }
      registry.Insert(id, Session(workspace, id));
      CreateSound(before, registry.View(), drawn, poolSize, workspace);
      r := Ok(id);
    }

    /** Once destroyed, destroying again changes nothing and returns the same record.
        When the backend does not shut down the session is lost: neither active nor kept. */
    method DestroySandbox(id: Id, shut: bool, says: bool) returns (r: Result<SessionRecord, Error>)
      requires Valid()
      modifies this`failures, registry
      ensures Valid()
      ensures id in old(registry.history) ==>
                r == Ok(old(registry.history)[id]) && registry.View() == old(registry.View())
      ensures id !in old(registry.history) && id !in old(registry.active) ==>
                r == Err(Unknown) && registry.View() == old(registry.View())
      ensures id in old(registry.active) ==>
                && registry.active == old(registry.active) - {id}
                && (r.Ok? <==> shut)
                && if shut then
                     && r.value.sandbox == id && r.value.workspace == old(registry.active)[id].workspace
                     && registry.history == old(registry.history)[id := r.value]
                     && registry.warm == Newest(old(registry.warm) + [id], poolSize)
                   else
                     r.error == Backend(says) && registry.history == old(registry.history)
                       && registry.warm == old(registry.warm)
      ensures failures == old(failures) + if r.Err? && !MissingSession(r.error) then 1 else 0
    {
      ghost var before := registry.View();
      if id in registry.history { return Ok(registry.history[id]); }
      var session := registry.RemoveActive(id);
      if session.Err? { return Err(session.error); }
      var now: int, changes: seq<string> := *, *;
      var record := SessionRecord(id, session.value.workspace, now, changes);
      if !shut {
        r := Err(Backend(says));
        if !MissingSession(r.error) { failures := failures + 1; }
        return;
      }
      registry.StoreWarmRun(session.value.run, poolSize);
      registry.SaveHistory(record);
      DestroySound(before, registry.View(), issued, poolSize, record);
      r := Ok(record);
    }

    /** Any sequence of calls: soundness holds throughout, no identifier is handed out
        twice, and what history once says it says for ever. */
    method Serve(calls: seq<Call>) returns (ids: seq<Id>)
      requires Valid()
      modifies this, registry
      ensures Valid()
      ensures forall i :: 0 <= i < |ids| ==> old(issued) <= ids[i] < issued
      ensures forall i, j :: 0 <= i < j < |ids| ==> ids[i] < ids[j]
      ensures forall id :: id in old(registry.history) ==>
                id in registry.history && registry.history[id] == old(registry.history)[id]
    {
      hide Sound, Newest, Popped, Attached, Boots, MissingSession;
      ids := [];
      for k := 0 to |calls|
        invariant Valid() && old(issued) <= issued
        invariant forall i :: 0 <= i < |ids| ==> old(issued) <= ids[i] < issued
        invariant forall i, j :: 0 <= i < j < |ids| ==> ids[i] < ids[j]
        invariant forall id :: id in old(registry.history) ==>
                    id in registry.history && registry.history[id] == old(registry.history)[id]
      {
        match calls[k]
        case CreateCall(workspace, policy, boot, says) =>
          var r := CreateSandbox(workspace, policy, boot, says);
          if r.Ok? { ids := ids + [r.value]; }
        case DestroyCall(id, shut, says) =>
          var _ := DestroySandbox(id, shut, says);
      }
    }

    /** Statistics of an active sandbox, when its guest answers. */
    method RuntimeStats(id: Id, answers: bool, says: bool) returns (r: Result<(), Error>)
      ensures r == if id !in registry.active then Err(Unknown) else if answers then Ok(()) else Err(Backend(says))
    {
      if id !in registry.active { return Err(Unknown); }
      if !answers { return Err(Backend(says)); }
      r := Ok(());
    }
  }

  lemma ShorterPool(s: Sessions, s': Sessions, issued: nat, poolSize: nat)
    requires Sound(s, issued, poolSize) && s' == s.(warm := s'.warm) && s'.warm <= s.warm
    ensures Sound(s', issued + 1, poolSize)
  {
    assert forall i :: 0 <= i < |s'.warm| ==> s'.warm[i] == s.warm[i];
  }
}
