/** The in-memory manager behind the Python stub, and its simulation of the
    disk-backed store: up to the names of checkpoints, both give the same replies. */
module StubManager {
  import opened Wrappers
  import opened Lineage
  import opened LineageFiles
  import opened LineageStore
  import opened LineageRuns
  import opened LineageClock
  import opened LineageRenaming

  /** The stub's maps, keyed by BOX and by (BOX, path) or (BOX, checkpoint). */
  datatype State = State(
    fileData: map<(WorkspaceId, string), Bytes>,
    checkpoints: map<WorkspaceId, seq<Record>>,
    snapshots: map<(WorkspaceId, Id), Disk>,
    heads: map<WorkspaceId, Id>)

  ghost function FilesOf(fileData: map<(WorkspaceId, string), Bytes>, ws: WorkspaceId): Disk {
    map k | k in fileData && k.0 == ws :: k.1 := fileData[k]
  }

  function RecordsOf(s: State, ws: WorkspaceId): seq<Record> {
    if ws in s.checkpoints then s.checkpoints[ws] else []
  }

  function SnapshotOf(s: State, ws: WorkspaceId, id: Id): Disk {
    if (ws, id) in s.snapshots then s.snapshots[(ws, id)] else map[]
  }

  function StubItems(s: State, ws: WorkspaceId): (items: seq<Item>)
    ensures |items| == |RecordsOf(s, ws)|
    ensures forall i :: 0 <= i < |items| ==>
              items[i] == Item(RecordsOf(s, ws)[i], SnapshotOf(s, ws, RecordsOf(s, ws)[i].id))
  {
    seq(|RecordsOf(s, ws)|, i requires 0 <= i < |RecordsOf(s, ws)| =>
      Item(RecordsOf(s, ws)[i], SnapshotOf(s, ws, RecordsOf(s, ws)[i].id)))
  }

  ghost function StubView(s: State, ws: WorkspaceId): Workspace {
    Workspace(FilesOf(s.fileData, ws), StubItems(s, ws), if ws in s.heads then Some(s.heads[ws]) else None)
  }

  ghost predicate StubShows(s: State, w: World) {
    forall ws :: StubView(s, ws) == At(w, ws)
  }

  /** Ids are numbered by the commit counter, so they never repeat. */
  ghost predicate Numbered(records: seq<Record>, committed: nat) {
    && (forall i :: 0 <= i < |records| ==> records[i].id <= committed)
    && forall i, j :: 0 <= i < j < |records| ==> records[i].id != records[j].id
  }

  ghost predicate AllNumbered(s: State, committed: nat) {
    forall ws :: ws in s.checkpoints ==> Numbered(s.checkpoints[ws], committed)
  }

  ghost predicate OnlyBox(s0: State, s: State, ws: WorkspaceId) {
    forall w :: w != ws ==> StubView(s, w) == StubView(s0, w) && RecordsOf(s, w) == RecordsOf(s0, w)
  }

  lemma FilePut(fileData: map<(WorkspaceId, string), Bytes>, ws: WorkspaceId, path: string, data: Bytes)
    ensures var after := fileData[(ws, path) := data];
            && FilesOf(after, ws) == FilesOf(fileData, ws)[path := data]
            && forall w :: w != ws ==> FilesOf(after, w) == FilesOf(fileData, w)
  {
    var after := fileData[(ws, path) := data];
    forall w | w != ws ensures FilesOf(after, w) == FilesOf(fileData, w) {
      assert forall p: string :: (w, p) in after <==> (w, p) in fileData;
    }
  }

  /** The stub's `retain`: everything but one checkpoint. */
  function Retain(records: seq<Record>, id: Id): (r: seq<Record>)
    ensures forall x :: x in r <==> x in records && x.id != id
  {
    if records == [] then []
    else
      var init, last := records[..|records| - 1], records[|records| - 1];
      assert records == init + [last];
      if last.id == id then Retain(init, id) else Retain(init, id) + [last]
  }

  function Pairs(records: seq<Record>, snapshots: map<Id, Disk>): (items: seq<Item>)
    ensures |items| == |records| && forall i :: 0 <= i < |records| ==> items[i] == Paired(records[i], snapshots)
  {
    seq(|records|, i requires 0 <= i < |records| => Paired(records[i], snapshots))
  }

  function Paired(r: Record, snapshots: map<Id, Disk>): Item {
    Item(r, if r.id in snapshots then snapshots[r.id] else map[])
  }

  lemma {:induction false} RetainIsWithout(records: seq<Record>, snapshots: map<Id, Disk>, id: Id)
    ensures Pairs(Retain(records, id), snapshots) == Without(Pairs(records, snapshots), id)
  {
    if records != [] {
      var n := |records| - 1;
      RetainIsWithout(records[..n], snapshots, id);
      assert Pairs(records, snapshots)[..n] == Pairs(records[..n], snapshots);
    }
  }

  lemma {:induction false} RetainNumbered(records: seq<Record>, id: Id, committed: nat)
    requires Numbered(records, committed)
    ensures Numbered(Retain(records, id), committed)
  {
    hide Retain;
    if records == [] {
      RetainNext([], id, Record(0, None, None));
    } else {
      var init, last := records[..|records| - 1], records[|records| - 1];
      assert records == init + [last];
      RetainNumbered(init, id, committed);
      RetainNext(init, id, last);
      var rest := Retain(init, id);
      forall i | 0 <= i < |rest| ensures rest[i].id != last.id {
        assert rest[i] in init;
        var j :| 0 <= j < |init| && init[j] == rest[i];
        assert records[j] == init[j];
      }
    }
  }

  lemma RetainNext(records: seq<Record>, id: Id, last: Record)
    ensures Retain(records + [last], id) == if last.id == id then Retain(records, id) else Retain(records, id) + [last]
    ensures Retain([], id) == []
  {
    assert (records + [last])[..|records|] == records;
  }

  ghost function Retained(s: State, ws: WorkspaceId, id: Id): State {
    s.(checkpoints := if ws in s.checkpoints then s.checkpoints[ws := Retain(s.checkpoints[ws], id)] else s.checkpoints,
       snapshots := s.snapshots - {(ws, id)})
  }

  lemma RetainedView(s: State, ws: WorkspaceId, id: Id)
    ensures StubItems(Retained(s, ws, id), ws) == Without(StubItems(s, ws), id)
  {
    var snapshots := map k | k in s.snapshots && k.0 == ws :: k.1 := s.snapshots[k];
    RetainIsWithout(RecordsOf(s, ws), snapshots, id);
    var s' := Retained(s, ws, id);
    assert RecordsOf(s', ws) == Retain(RecordsOf(s, ws), id);
    hide Without, Retain;
    assert StubItems(s, ws) == Pairs(RecordsOf(s, ws), snapshots);
    assert StubItems(s', ws) == Pairs(RecordsOf(s', ws), snapshots);
  }

  /** A change to one BOX's files, head, list and snapshots shows in that BOX alone. */
  lemma BoxesKept(s0: State, s: State, ws: WorkspaceId)
    requires forall w :: w != ws ==>
               && RecordsOf(s, w) == RecordsOf(s0, w) && FilesOf(s.fileData, w) == FilesOf(s0.fileData, w)
               && (w in s.heads <==> w in s0.heads) && (w in s.heads ==> s.heads[w] == s0.heads[w])
    requires forall w, id :: w != ws ==> SnapshotOf(s, w, id) == SnapshotOf(s0, w, id)
    ensures OnlyBox(s0, s, ws)
  {}

  lemma FilesReplaced(s0: State, s: State, ws: WorkspaceId)
    requires s.checkpoints == s0.checkpoints && s.snapshots == s0.snapshots
    requires forall w :: w != ws ==> FilesOf(s.fileData, w) == FilesOf(s0.fileData, w)
    requires forall w :: w != ws ==> (w in s.heads <==> w in s0.heads) && (w in s.heads ==> s.heads[w] == s0.heads[w])
    ensures OnlyBox(s0, s, ws)
    ensures StubView(s, ws) == Workspace(FilesOf(s.fileData, ws), StubItems(s0, ws), StubView(s, ws).head)
  {
    hide FilesOf;
    BoxesKept(s0, s, ws);
  }

  ghost function StubCreated(s: State, ws: WorkspaceId, id: Id, name: Option<string>): State {
    State(s.fileData,
          s.checkpoints[ws := RecordsOf(s, ws) + [NewItem(StubView(s, ws), id, name).record]],
          s.snapshots[(ws, id) := FilesOf(s.fileData, ws)],
          s.heads[ws := id])
  }

  lemma CreatedState(s: State, ws: WorkspaceId, id: Id, name: Option<string>)
    requires id > 0 && AllNumbered(s, id - 1)
    ensures var s' := StubCreated(s, ws, id, name);
            AllNumbered(s', id) && OnlyBox(s, s', ws) && StubView(s', ws) == Created(StubView(s, ws), id, name)
  {
    var s' := StubCreated(s, ws, id, name);
    CreatedNumbered(s, ws, id, name);
    CreatedItems(s, ws, id, name);
    assert s'.fileData == s.fileData && s'.heads == s.heads[ws := id];
    hide FilesOf, StubItems, AllNumbered, RecordsOf, NewItem;
    CreatedElsewhere(s, ws, id, name);
    hide OnlyBox;
  }

  lemma CreatedNumbered(s: State, ws: WorkspaceId, id: Id, name: Option<string>)
    requires id > 0 && AllNumbered(s, id - 1)
    ensures AllNumbered(StubCreated(s, ws, id, name), id)
  {
    hide FilesOf, StubView;
    var records := RecordsOf(s, ws);
    assert Numbered(records, id - 1);
    assert Numbered(records + [NewItem(StubView(s, ws), id, name).record], id);
  }

  lemma CreatedElsewhere(s: State, ws: WorkspaceId, id: Id, name: Option<string>)
    ensures OnlyBox(s, StubCreated(s, ws, id, name), ws)
  {
    hide FilesOf, OnlyBox, NewItem;
    BoxesKept(s, StubCreated(s, ws, id, name), ws);
  }

  lemma CreatedItems(s: State, ws: WorkspaceId, id: Id, name: Option<string>)
    requires id > 0 && AllNumbered(s, id - 1)
    ensures StubItems(StubCreated(s, ws, id, name), ws) == StubItems(s, ws) + [NewItem(StubView(s, ws), id, name)]
  {
    hide FilesOf;
    var s' := StubCreated(s, ws, id, name);
    assert RecordsOf(s', ws) == RecordsOf(s, ws) + [NewItem(StubView(s, ws), id, name).record];
    assert Numbered(RecordsOf(s, ws), id - 1);
  }

  ghost function StubDeleted(s: State, ws: WorkspaceId, id: Id): State {
    Retained(s, ws, id).(heads :=
      if ws !in s.heads || s.heads[ws] != id then s.heads
      else if Has(StubItems(s, ws), id) && StubItems(s, ws)[Position(StubItems(s, ws), id)].record.source.Some?
      then s.heads[ws := StubItems(s, ws)[Position(StubItems(s, ws), id)].record.source.value]
      else s.heads - {ws})
  }

  lemma DeletedState(s: State, ws: WorkspaceId, id: Id, committed: nat)
    requires AllNumbered(s, committed)
    ensures var s' := StubDeleted(s, ws, id);
            AllNumbered(s', committed) && OnlyBox(s, s', ws) && StubView(s', ws) == Deleted(StubView(s, ws), id)
  {
    hide FilesOf, Without, Retain, Has, Position;
    var s' := StubDeleted(s, ws, id);
    assert StubItems(s', ws) == StubItems(Retained(s, ws, id), ws);
    RetainedView(s, ws, id);
    hide StubItems, RecordsOf;
    DeletedElsewhere(s, ws, id);
    DeletedNumbered(s, ws, id, committed);
    hide OnlyBox, AllNumbered;
  }

  lemma DeletedElsewhere(s: State, ws: WorkspaceId, id: Id)
    ensures OnlyBox(s, StubDeleted(s, ws, id), ws)
  {
    hide FilesOf, OnlyBox, Retain, StubItems, Has, Position;
    BoxesKept(s, StubDeleted(s, ws, id), ws);
  }

  lemma DeletedNumbered(s: State, ws: WorkspaceId, id: Id, committed: nat)
    requires AllNumbered(s, committed)
    ensures AllNumbered(StubDeleted(s, ws, id), committed)
  {
    hide Retain, StubItems, Has, Position, Numbered;
    if ws in s.checkpoints { RetainNumbered(s.checkpoints[ws], id, committed); }
  }

  /** Cutting the list and dropping the snapshots behind the cut. */
  lemma RolledBack(s: State, s': State, ws: WorkspaceId, target: nat, committed: nat)
    requires AllNumbered(s, committed) && ws in s.checkpoints && target < |s.checkpoints[ws]|
    requires s'.checkpoints == s.checkpoints[ws := s.checkpoints[ws][..target + 1]]
    requires s'.fileData == s.fileData && s'.heads == s.heads
    requires forall w, id :: w != ws ==> SnapshotOf(s', w, id) == SnapshotOf(s, w, id)
    requires var records := s.checkpoints[ws];
             forall id :: (forall i :: target < i < |records| ==> records[i].id != id) ==>
               SnapshotOf(s', ws, id) == SnapshotOf(s, ws, id)
    ensures AllNumbered(s', committed) && OnlyBox(s, s', ws)
    ensures StubItems(s', ws) == StubItems(s, ws)[..target + 1]
  {
    hide FilesOf, OnlyBox, SnapshotOf;
    BoxesKept(s, s', ws);
    var records := s.checkpoints[ws];
    assert Numbered(records, committed);
    forall i | 0 <= i <= target ensures StubItems(s', ws)[i] == StubItems(s, ws)[i] {
      assert RecordsOf(s', ws)[i] == records[i];
    }
  }

  ghost function StubRemoved(s: State, ws: WorkspaceId): State {
    State(map k | k in s.fileData && k.0 != ws :: s.fileData[k], s.checkpoints - {ws},
          map k | k in s.snapshots && k.0 != ws :: s.snapshots[k], s.heads - {ws})
  }

  lemma RemovedState(s: State, ws: WorkspaceId)
    ensures OnlyBox(s, StubRemoved(s, ws), ws) && StubView(StubRemoved(s, ws), ws) == Blank
  {
    var s' := StubRemoved(s, ws);
    forall w | w != ws ensures FilesOf(s'.fileData, w) == FilesOf(s.fileData, w) {}
    assert FilesOf(s'.fileData, ws) == map[];
    BoxesKept(s, s', ws);
  }

  class StubBoxManager {
    var fileData: map<(WorkspaceId, string), Bytes>
    var committed: nat
    var checkpoints: map<WorkspaceId, seq<Record>>
    var snapshots: map<(WorkspaceId, Id), Disk>
    var heads: map<WorkspaceId, Id>

    ghost function Abs(): State
      reads this
    {
      State(fileData, checkpoints, snapshots, heads)
    }

    ghost predicate Valid()
      reads this
    {
      AllNumbered(Abs(), committed)
    }

    constructor ()
      ensures Valid() && committed == 0 && forall ws :: StubView(Abs(), ws) == Blank
    {
      fileData, committed, checkpoints, snapshots, heads := map[], 0, map[], map[], map[];
    }

    method WriteFile(ws: WorkspaceId, path: string, data: Bytes)
      requires Valid()
      modifies this
      ensures Valid() && committed == old(committed) && OnlyBox(old(Abs()), Abs(), ws)
      ensures StubView(Abs(), ws) == old(StubView(Abs(), ws)).(disk := old(StubView(Abs(), ws)).disk[path := data])
    {
      FilePut(fileData, ws, path, data);
      hide FilesOf;
      fileData := fileData[(ws, path) := data];
    }

    method CaptureSnapshot(ws: WorkspaceId) returns (snapshot: Disk)
      ensures snapshot == FilesOf(fileData, ws)
    {
      snapshot := map[];
      var pending := fileData.Keys;
      while pending != {}
        invariant pending <= fileData.Keys
        invariant forall p :: p in snapshot <==> (ws, p) in fileData && (ws, p) !in pending
        invariant forall p :: p in snapshot ==> snapshot[p] == fileData[(ws, p)]
      {
        var k :| k in pending;
        pending := pending - {k};
        if k.0 == ws {
          snapshot := snapshot[k.1 := fileData[k]];
        }
      }
    }

    /** Replaces a BOX's files by the snapshot's. */
    method ApplySnapshot(ws: WorkspaceId, snapshot: Disk)
      modifies this
      ensures committed == old(committed) && checkpoints == old(checkpoints)
      ensures snapshots == old(snapshots) && heads == old(heads)
      ensures FilesOf(fileData, ws) == snapshot
      ensures forall w :: w != ws ==> FilesOf(fileData, w) == FilesOf(old(fileData), w)
    {
      fileData := map k | k in fileData && k.0 != ws :: fileData[k];
      ghost var others := fileData;
      var pending := snapshot.Keys;
      while pending != {}
        invariant pending <= snapshot.Keys
        invariant committed == old(committed) && checkpoints == old(checkpoints)
        invariant snapshots == old(snapshots) && heads == old(heads)
        invariant forall k: (WorkspaceId, string) :: k.0 != ws ==> (k in fileData <==> k in others)
        invariant forall k: (WorkspaceId, string) :: k.0 != ws && k in fileData ==> fileData[k] == others[k]
        invariant forall p :: (ws, p) in fileData <==> p in snapshot && p !in pending
        invariant forall p :: (ws, p) in fileData ==> fileData[(ws, p)] == snapshot[p]
      {
        var p :| p in pending;
        pending := pending - {p};
        fileData := fileData[(ws, p) := snapshot[p]];
      }
      assert forall w :: w != ws ==> FilesOf(fileData, w) == FilesOf(old(fileData), w);
    }

    method CheckpointCreate(ws: WorkspaceId, name: Option<string>) returns (r: Record)
      requires Valid()
      modifies this
      ensures Valid() && committed == old(committed) + 1 && OnlyBox(old(Abs()), Abs(), ws)
      ensures r == NewItem(old(StubView(Abs(), ws)), committed, name).record
      ensures StubView(Abs(), ws) == Created(old(StubView(Abs(), ws)), committed, name)
    {
      ghost var s0 := Abs();
      committed := committed + 1;
      var source := if ws in heads then Some(heads[ws]) else None;
      var snapshot := CaptureSnapshot(ws);
      r := Record(committed, source, name);
      assert r == NewItem(StubView(s0, ws), committed, name).record;
      CreatedState(s0, ws, committed, name);
      hide FilesOf, StubView, OnlyBox, AllNumbered, StubItems, RecordsOf;
      PushCheckpoint(ws, r, snapshot);
    }

    method PushCheckpoint(ws: WorkspaceId, r: Record, snapshot: Disk)
      modifies this`checkpoints, this`snapshots, this`heads
      ensures Abs() == old(State(fileData, checkpoints[ws := RecordsOf(Abs(), ws) + [r]],
                                 snapshots[(ws, r.id) := snapshot], heads[ws := r.id]))
    {
      checkpoints := checkpoints[ws := (if ws in checkpoints then checkpoints[ws] else []) + [r]];
      snapshots := snapshots[(ws, r.id) := snapshot];
      heads := heads[ws := r.id];
    }

    method CheckpointList(ws: WorkspaceId) returns (records: seq<Record>)
      ensures records == Records(StubView(Abs(), ws).items)
    {
      records := if ws in checkpoints then checkpoints[ws] else [];
    }

    method FindCheckpoint(ws: WorkspaceId, id: Id) returns (index: Option<nat>)
      ensures index.Some? <==> Has(StubItems(Abs(), ws), id)
      ensures index.Some? ==> index.value == Position(StubItems(Abs(), ws), id)
      ensures index.Some? ==>
                ws in checkpoints && checkpoints[ws][index.value] == StubItems(Abs(), ws)[index.value].record
    {
      var records := if ws in checkpoints then checkpoints[ws] else [];
      for i := 0 to |records|
        invariant forall j :: 0 <= j < i ==> records[j].id != id
      {
        if records[i].id == id {
          assert StubItems(Abs(), ws)[i].record.id == id;
          return Some(i);
        }
      }
      index := None;
    }

    /** Drops the checkpoints after a position, with their snapshots. */
    method RollbackCheckpoints(ws: WorkspaceId, target: nat)
      requires Valid() && ws in checkpoints && target < |checkpoints[ws]|
      modifies this
      ensures Valid() && committed == old(committed) && fileData == old(fileData) && heads == old(heads)
      ensures OnlyBox(old(Abs()), Abs(), ws)
      ensures StubItems(Abs(), ws) == old(StubItems(Abs(), ws))[..target + 1]
    {
      hide AllNumbered, OnlyBox, StubItems, StubView;
      ghost var s := Abs();
      var records := checkpoints[ws];
      checkpoints := checkpoints[ws := records[..target + 1]];
      for k := target + 1 to |records|
        modifies this`snapshots
        invariant forall w, id :: w != ws ==> SnapshotOf(Abs(), w, id) == SnapshotOf(s, w, id)
        invariant forall id :: (forall i :: target < i < k ==> records[i].id != id) ==>
                    SnapshotOf(Abs(), ws, id) == SnapshotOf(s, ws, id)
      {
        snapshots := snapshots - {(ws, records[k].id)};
      }
      RolledBack(s, Abs(), ws, target, committed);
    }

    method CheckpointRestore(ws: WorkspaceId, id: Id, mode: Mode) returns (res: Result<Record, StoreError>)
      requires Valid()
      modifies this
      ensures Valid() && committed == old(committed) && OnlyBox(old(Abs()), Abs(), ws)
      ensures res.Ok? <==> Has(old(StubView(Abs(), ws)).items, id)
      ensures res.Err? ==> StubView(Abs(), ws) == old(StubView(Abs(), ws))
      ensures res.Ok? ==>
                var was := old(StubView(Abs(), ws));
                res.value == was.items[Position(was.items, id)].record && StubView(Abs(), ws) == Restored(was, id, mode)
    {
      hide FilesOf;
      var index := FindCheckpoint(ws, id);
      if index.None? {
        return Err(UnknownCheckpoint);
      }
      res := Ok(checkpoints[ws][index.value]);
      if mode.Rollback? {
        RollbackCheckpoints(ws, index.value);
      }
      ghost var s0, s1 := old(Abs()), Abs();
      assert StubItems(s1, ws)[index.value] == StubItems(s0, ws)[index.value];
      var snapshot := if (ws, id) in snapshots then snapshots[(ws, id)] else map[];
      ApplySnapshot(ws, snapshot);
      heads := heads[ws := id];
      FilesReplaced(s1, Abs(), ws);
      hide StubView, StubItems;
    }

    /** The new BOX is fresh, so it has no checkpoints and no head of its own. */
    method CheckpointFork(ws: WorkspaceId, id: Id, into: WorkspaceId) returns (res: Result<(), StoreError>)
      requires Valid()
      modifies this
      ensures Valid() && committed == old(committed) && OnlyBox(old(Abs()), Abs(), into)
      ensures res.Ok? <==> Has(old(StubView(Abs(), ws)).items, id)
      ensures res.Err? ==> StubView(Abs(), into) == old(StubView(Abs(), into))
      ensures res.Ok? ==>
                var from := old(StubView(Abs(), ws)).items;
                StubView(Abs(), into) == old(StubView(Abs(), into)).(disk := from[Position(from, id)].snapshot)
    {
      hide FilesOf;
      var index := FindCheckpoint(ws, id);
      if index.None? {
        return Err(UnknownCheckpoint);
      }
      var snapshot := if (ws, id) in snapshots then snapshots[(ws, id)] else map[];
      ApplySnapshot(into, snapshot);
      res := Ok(());
    }

    method CheckpointDelete(ws: WorkspaceId, id: Id)
      requires Valid()
      modifies this
      ensures Valid() && committed == old(committed) && OnlyBox(old(Abs()), Abs(), ws)
      ensures StubView(Abs(), ws) == Deleted(old(StubView(Abs(), ws)), id)
    {
      hide StubView, OnlyBox, AllNumbered, Retained, Without, StubItems, Has, Position;
      ghost var s0 := Abs();
      var index := FindCheckpoint(ws, id);
      var parent := if index.Some? then checkpoints[ws][index.value].source else None;
      DeletedState(s0, ws, id, committed);
      DropCheckpoint(ws, id);
      if ws in heads && heads[ws] == id {
        heads := if parent.Some? then heads[ws := parent.value] else heads - {ws};
      }
      assert Abs() == StubDeleted(s0, ws, id);
    }

    method DropCheckpoint(ws: WorkspaceId, id: Id)
      modifies this`checkpoints, this`snapshots
      ensures Abs() == old(Retained(Abs(), ws, id))
    {
      hide Retain;
      if ws in checkpoints {
        checkpoints := checkpoints[ws := Retain(checkpoints[ws], id)];
      }
      snapshots := snapshots - {(ws, id)};
    }

    method RemoveBox(ws: WorkspaceId)
      requires Valid()
      modifies this
      ensures Valid() && committed == old(committed) && OnlyBox(old(Abs()), Abs(), ws)
      ensures StubView(Abs(), ws) == Blank
    {
      RemovedState(Abs(), ws);
      hide StubView, OnlyBox;
      checkpoints := checkpoints - {ws};
      snapshots := map k | k in snapshots && k.0 != ws :: snapshots[k];
      heads := heads - {ws};
      fileData := map k | k in fileData && k.0 != ws :: fileData[k];
    }

    method Perform(op: Op, ghost w: World) returns (reply: Reply)
      requires Valid() && StubShows(Abs(), w) && !op.Write?
      requires op.Create? ==> op.id == committed + 1
      requires op.Fork? ==> At(w, op.into) == Blank
      modifies this
      ensures Valid() && StubShows(Abs(), Next(w, op)) && reply == Answer(w, op)
      ensures committed == old(committed) + if op.Create? then 1 else 0
    {
      hide StubView, FilesOf, StubItems, Without, AllNumbered;
      match op
      case WriteFile(ws, path, data) =>
        WriteFile(ws, path, data);
        reply := Done;
      case Create(ws, id, name) =>
        var r := CheckpointCreate(ws, name);
        reply := Checkpoint(r);
      case List(ws) =>
        var records := CheckpointList(ws);
        reply := Listing(records);
      case Restore(ws, id, mode) =>
        var res := CheckpointRestore(ws, id, mode);
        reply := if res.Ok? then Checkpoint(res.value) else NotFound;
      case Delete(ws, id) =>
        CheckpointDelete(ws, id);
        reply := Done;
      case Fork(ws, id, into) =>
        var res := CheckpointFork(ws, id, into);
        reply := if res.Ok? then Done else NotFound;
      case Remove(ws) =>
        RemoveBox(ws);
        reply := Done;
    }

    method Replay(ops: seq<Op>) returns (replies: seq<Reply>)
      requires Valid() && StubShows(Abs(), map[]) && committed == 0
      requires StubRun(ops) && FreshForks(ops)
      modifies this
      ensures Valid() && replies == Answers(ops) && StubShows(Abs(), Run(ops))
    {
      hide StubShows, Next;
      replies := [];
      for k := 0 to |ops|
        invariant Valid() && StubShows(Abs(), Run(ops[..k])) && replies == Answers(ops[..k])
        invariant committed == Creates(ops[..k])
      {
        assert ops[..k + 1][..k] == ops[..k];
        if ops[k].Fork? {
          WorkspacesAreIsolated(ops[..k], 0, ops[k].into);
          assert ops[..k][..0] == [];
        }
        var reply := Perform(ops[k], Run(ops[..k]));
        replies := replies + [reply];
      }
      assert ops[..|ops|] == ops;
    }
  }

  /** How many checkpoints a run has created. */
  function Creates(ops: seq<Op>): nat {
    if ops == [] then 0 else Creates(ops[..|ops| - 1]) + if ops[|ops| - 1].Create? then 1 else 0
  }

  /** A run the stub can take part in: checkpoints carry the stub's own numbers,
      and files change one at a time. */
  ghost predicate StubRun(ops: seq<Op>) {
    && (forall i :: 0 <= i < |ops| ==> !ops[i].Write?)
    && forall i :: 0 <= i < |ops| && ops[i].Create? ==> ops[i].id == Creates(ops[..i]) + 1
  }

  lemma {:induction false} CreatesGrow(ops: seq<Op>, i: nat, j: nat)
    requires i <= j <= |ops|
    ensures Creates(ops[..i]) <= Creates(ops[..j])
    ensures i < j && ops[i].Create? ==> Creates(ops[..i]) < Creates(ops[..j])
  {
    if i < j {
      assert ops[..j][..j - 1] == ops[..j - 1];
      CreatesGrow(ops, i, j - 1);
    }
  }

  lemma {:induction false} StubRunIsLegal(ops: seq<Op>)
    requires StubRun(ops)
    ensures Legal(ops)
  {
    forall i, j | 0 <= i < j < |ops| && ops[i].Create? && ops[j].Create? ensures ops[i].id != ops[j].id {
      CreatesGrow(ops, i, j);
    }
  }

  // ---- the stub's names for checkpoints ----

  /** The stub's number for a checkpoint; nothing is numbered zero. */
  function NumberOf(ops: seq<Op>, id: Id): nat {
    if ops == [] then 0
    else
      var last := ops[|ops| - 1];
      if last.Create? && last.id == id then Creates(ops) else NumberOf(ops[..|ops| - 1], id)
  }

  /** An id as the stub knows it; ids that are never created keep out of the way. */
  function StubIds(ops: seq<Op>): Renaming {
    (id: Id) => if NumberOf(ops, id) > 0 then NumberOf(ops, id) else Creates(ops) + 1 + id
  }

  lemma {:induction false} NumbersDiffer(ops: seq<Op>, a: Id, b: Id)
    ensures NumberOf(ops, a) <= Creates(ops)
    ensures a != b && NumberOf(ops, a) > 0 ==> NumberOf(ops, a) != NumberOf(ops, b)
  {
    if ops != [] {
      NumbersDiffer(ops[..|ops| - 1], a, b);
      NumbersDiffer(ops[..|ops| - 1], b, a);
    }
  }

  lemma {:induction false} NumberOfCreate(ops: seq<Op>, i: nat)
    requires Legal(ops) && i < |ops| && ops[i].Create?
    ensures NumberOf(ops, ops[i].id) == Creates(ops[..i]) + 1
  {
    var n := |ops| - 1;
    if i < n {
      NumberOfCreate(ops[..n], i);
      assert ops[..n][..i] == ops[..i];
    }
  }

  lemma {:induction false} CreatesRenamed(ops: seq<Op>, f: Renaming)
    ensures Creates(RenamedOps(ops, f)) == Creates(ops)
  {
    if ops != [] {
      var n := |ops| - 1;
      CreatesRenamed(ops[..n], f);
      assert RenamedOps(ops, f)[..n] == RenamedOps(ops[..n], f);
    }
  }

  /** Every legal run that changes files one at a time is, in the stub's names, a run the
      stub can take part in. */
  lemma {:induction false} StubIdsFit(ops: seq<Op>)
    requires Legal(ops) && forall i :: 0 <= i < |ops| ==> !ops[i].Write?
    ensures Injective(StubIds(ops)) && StubRun(RenamedOps(ops, StubIds(ops)))
  {
    hide NumberOf, Creates;
    var f := StubIds(ops);
    forall a: Id, b: Id | f(a) == f(b) ensures a == b {
      NumbersDiffer(ops, a, b);
      NumbersDiffer(ops, b, a);
    }
    var renamed := RenamedOps(ops, f);
    forall i | 0 <= i < |renamed| && renamed[i].Create? ensures renamed[i].id == Creates(renamed[..i]) + 1 {
      NumberOfCreate(ops, i);
      assert renamed[..i] == RenamedOps(ops[..i], f);
      CreatesRenamed(ops[..i], f);
    }
  }

  /** A run the stub can take part in under other names gives its checkpoints different ids. */
  lemma {:induction false} RenamedIsLegal(ops: seq<Op>, f: Renaming)
    requires StubRun(RenamedOps(ops, f))
    ensures Legal(ops)
  {
    var renamed := RenamedOps(ops, f);
    StubRunIsLegal(renamed);
    forall i, j | 0 <= i < j < |ops| && ops[i].Create? && ops[j].Create? ensures ops[i].id != ops[j].id {
      assert renamed[i].Create? && renamed[j].Create?;
    }
  }

  /** The disk-backed store and the stub simulate each other, whatever names either gives
      to checkpoints: on every run in which each create finds the clock ahead of what is
      listed, the stub's replies, disks, lists, source links and heads are the store's,
      renamed.  `StubIdsFit` gives every run its renaming. */
  method Simulation(ops: seq<Op>, clock: seq<nat>, f: Renaming)
    returns (store: WorkspaceStore, stub: StubBoxManager, onDisk: seq<Reply>, inMemory: seq<Reply>)
    requires Injective(f) && StubRun(RenamedOps(ops, f))
    requires FreshForks(ops) && |clock| == |ops| && AllAhead(ops, clock)
    ensures onDisk == Answers(ops) && inMemory == RenamedReplies(onDisk, f)
    ensures fresh(store) && fresh(stub) && store.Valid()
    ensures forall ws :: View(store.State(), ws) == At(Run(ops), ws)
    ensures forall ws :: StubView(stub.Abs(), ws) == RenamedWorkspace(View(store.State(), ws), f)
  {
    RenamedIsLegal(ops, f);
    AheadRunsAgree(ops, clock);
    RunRenamed(ops, f);
    ForksRenamed(ops, f);
    forall ws ensures At(RenamedWorld(Run(ops), f), ws) == RenamedWorkspace(At(Run(ops), ws), f) {
      AtRenamed(Run(ops), ws, f);
    }
    hide AllAhead, StubRun, FreshForks, RenamedWorld, RenamedWorkspace;
    store := new WorkspaceStore();
    stub := new StubBoxManager();
    onDisk := store.Replay(ops, clock);
    inMemory := stub.Replay(RenamedOps(ops, f));
  }
}
