/** What a checkpoint store promises, independent of how it keeps its data.

    A workspace is a live disk, the checkpoints taken of it in list order, and a
    head naming the checkpoint the live disk descends from.  The disk-backed
    store (LineageStore.dfy) and the in-memory stub (StubManager.dfy) are both
    proved to be this machine; everything proved here over whole runs therefore
    holds of both. */
module Lineage {
  import opened Wrappers

  /** A checkpoint id.  UUIDs printed as fixed-width hex compare like numbers. */
  type Id = nat
  type WorkspaceId = nat

  /** A disk image, seen as its files; it is only ever copied and compared. */
  type Disk = map<string, Bytes>

  datatype Record = Record(id: Id, source: Option<Id>, name: Option<string>)
  datatype Item = Item(record: Record, snapshot: Disk)
  datatype Workspace = Workspace(disk: Disk, items: seq<Item>, head: Option<Id>)

  datatype Mode = Rollback | Replace

  datatype Op =
    | Write(ws: WorkspaceId, disk: Disk)
    | WriteFile(ws: WorkspaceId, path: string, data: Bytes)
    | Create(ws: WorkspaceId, id: Id, name: Option<string>)
    | List(ws: WorkspaceId)
    | Restore(ws: WorkspaceId, id: Id, mode: Mode)
    | Delete(ws: WorkspaceId, id: Id)
    | Fork(ws: WorkspaceId, id: Id, into: WorkspaceId)
    | Remove(ws: WorkspaceId)

  datatype Reply = Done | NotFound | Checkpoint(record: Record) | Listing(records: seq<Record>)

  type World = map<WorkspaceId, Workspace>

  const Blank := Workspace(map[], [], None)

  function At(w: World, ws: WorkspaceId): Workspace {
    if ws in w then w[ws] else Blank
  }

  // ---- the transitions of one workspace ----

  function IdsOf(items: seq<Item>): set<Id> {
    set it | it in items :: it.record.id
  }

  predicate Has(items: seq<Item>, id: Id) {
    exists i :: 0 <= i < |items| && items[i].record.id == id
  }

  /** The first position of a checkpoint in the list. */
  function Position(items: seq<Item>, id: Id): (p: nat)
    requires Has(items, id)
    ensures p < |items| && items[p].record.id == id
    ensures forall q :: 0 <= q < p ==> items[q].record.id != id
  {
    if items[0].record.id == id then 0
    else
      assert Has(items[1..], id) by {
        var i :| 0 <= i < |items| && items[i].record.id == id;
        assert items[1..][i - 1].record.id == id;
      }
      1 + Position(items[1..], id)
  }

  function Without(items: seq<Item>, id: Id): (r: seq<Item>)
    ensures forall it :: it in r <==> it in items && it.record.id != id
  {
    if items == [] then []
    else
      var init, last := items[..|items| - 1], items[|items| - 1];
      assert items == init + [last];
      if last.record.id == id then Without(init, id) else Without(init, id) + [last]
  }

  function Records(items: seq<Item>): (r: seq<Record>)
    ensures |r| == |items| && forall i :: 0 <= i < |r| ==> r[i] == items[i].record
  {
    seq(|items|, i requires 0 <= i < |items| => items[i].record)
  }

  function NewItem(w: Workspace, id: Id, name: Option<string>): Item {
    Item(Record(id, w.head, name), w.disk)
  }

  function Created(w: Workspace, id: Id, name: Option<string>): Workspace {
    w.(items := w.items + [NewItem(w, id, name)], head := Some(id))
  }

  function Restored(w: Workspace, id: Id, mode: Mode): Workspace
    requires Has(w.items, id)
  {
    var p := Position(w.items, id);
    Workspace(w.items[p].snapshot, if mode.Rollback? then w.items[..p + 1] else w.items, Some(id))
  }

  /** Deleting the head moves it to the deleted checkpoint's own source. */
  function Deleted(w: Workspace, id: Id): Workspace {
    Workspace(w.disk, Without(w.items, id),
              if w.head != Some(id) then w.head
              else if Has(w.items, id) then w.items[Position(w.items, id)].record.source
              else None)
  }

  // ---- the whole store ----

  function Next(w: World, op: Op): World {
    match op
    case Write(ws, disk) => w[ws := At(w, ws).(disk := disk)]
    case WriteFile(ws, path, data) => w[ws := At(w, ws).(disk := At(w, ws).disk[path := data])]
    case Create(ws, id, name) => w[ws := Created(At(w, ws), id, name)]
    case List(ws) => w
    case Restore(ws, id, mode) =>
      if Has(At(w, ws).items, id) then w[ws := Restored(At(w, ws), id, mode)] else w
    case Delete(ws, id) => w[ws := Deleted(At(w, ws), id)]
    case Fork(ws, id, into) =>
      if Has(At(w, ws).items, id)
      then w[into := At(w, into).(disk := At(w, ws).items[Position(At(w, ws).items, id)].snapshot, head := None)]
      else w
    case Remove(ws) => w - {ws}
  }

  function Answer(w: World, op: Op): Reply {
    match op
    case Write(_, _) => Done
    case WriteFile(_, _, _) => Done
    case Create(ws, id, name) => Checkpoint(NewItem(At(w, ws), id, name).record)
    case List(ws) => Listing(Records(At(w, ws).items))
    case Restore(ws, id, _) =>
      if Has(At(w, ws).items, id)
      then Checkpoint(At(w, ws).items[Position(At(w, ws).items, id)].record) else NotFound
    case Delete(_, _) => Done
    case Fork(ws, id, _) => if Has(At(w, ws).items, id) then Done else NotFound
    case Remove(_) => Done
  }

  /** The store after a run, from an empty state directory. */
  function Run(ops: seq<Op>): World {
    if ops == [] then map[] else Next(Run(ops[..|ops| - 1]), ops[|ops| - 1])
  }

  function Answers(ops: seq<Op>): (r: seq<Reply>)
    ensures |r| == |ops|
  {
    if ops == [] then []
    else Answers(ops[..|ops| - 1]) + [Answer(Run(ops[..|ops| - 1]), ops[|ops| - 1])]
  }

  /** Checkpoint ids come from a UUID generator, so no two creates share one. */
  ghost predicate Legal(ops: seq<Op>) {
    forall i, j :: 0 <= i < j < |ops| && ops[i].Create? && ops[j].Create? ==> ops[i].id != ops[j].id
  }

  /** So do the ids of forked workspaces: nothing named one before its fork. */
  ghost predicate FreshForks(ops: seq<Op>) {
    forall i, j :: 0 <= i < j < |ops| && ops[j].Fork? ==> !Touches(ops[i], ops[j].into)
  }

  predicate Touches(op: Op, ws: WorkspaceId) {
    op.ws == ws || (op.Fork? && op.into == ws)
  }
}
