/** Checkpoint ids are only ever compared: renaming them in a run renames them in every
    reply and in the resulting store, and changes nothing else. */
module LineageRenaming {
  import opened Wrappers
  import opened Lineage

  type Renaming = Id -> Id

  ghost predicate Injective(f: Renaming) {
    forall a: Id, b: Id :: f(a) == f(b) ==> a == b
  }

  function RenamedLink(link: Option<Id>, f: Renaming): Option<Id> {
    if link.Some? then Some(f(link.value)) else None
  }

  function RenamedRecord(r: Record, f: Renaming): Record {
    Record(f(r.id), RenamedLink(r.source, f), r.name)
  }

  function RenamedRecords(records: seq<Record>, f: Renaming): seq<Record> {
    seq(|records|, i requires 0 <= i < |records| => RenamedRecord(records[i], f))
  }

  function RenamedItem(x: Item, f: Renaming): Item {
    Item(RenamedRecord(x.record, f), x.snapshot)
  }

  function RenamedItems(items: seq<Item>, f: Renaming): (r: seq<Item>)
    ensures |r| == |items| && forall i :: 0 <= i < |r| ==> r[i] == RenamedItem(items[i], f)
  {
    seq(|items|, i requires 0 <= i < |items| => RenamedItem(items[i], f))
  }

  function RenamedWorkspace(w: Workspace, f: Renaming): Workspace {
    Workspace(w.disk, RenamedItems(w.items, f), RenamedLink(w.head, f))
  }

  function RenamedWorld(w: World, f: Renaming): World {
    map ws | ws in w :: RenamedWorkspace(w[ws], f)
  }

  function RenamedOp(op: Op, f: Renaming): Op {
    match op
    case Create(ws, id, name) => Create(ws, f(id), name)
    case Restore(ws, id, mode) => Restore(ws, f(id), mode)
    case Delete(ws, id) => Delete(ws, f(id))
    case Fork(ws, id, into) => Fork(ws, f(id), into)
    case _ => op
  }

  function RenamedOps(ops: seq<Op>, f: Renaming): (r: seq<Op>)
    ensures |r| == |ops| && forall i :: 0 <= i < |r| ==> r[i] == RenamedOp(ops[i], f)
  {
    seq(|ops|, i requires 0 <= i < |ops| => RenamedOp(ops[i], f))
  }

  function RenamedReply(reply: Reply, f: Renaming): Reply {
    match reply
    case Checkpoint(record) => Checkpoint(RenamedRecord(record, f))
    case Listing(records) => Listing(RenamedRecords(records, f))
    case _ => reply
  }

  function RenamedReplies(replies: seq<Reply>, f: Renaming): (r: seq<Reply>)
    ensures |r| == |replies| && forall i :: 0 <= i < |r| ==> r[i] == RenamedReply(replies[i], f)
  {
    seq(|replies|, i requires 0 <= i < |replies| => RenamedReply(replies[i], f))
  }

  // ---- one workspace ----

  lemma FoundRenamed(items: seq<Item>, id: Id, f: Renaming)
    requires Injective(f)
    ensures Has(RenamedItems(items, f), f(id)) <==> Has(items, id)
    ensures Has(items, id) ==> Position(RenamedItems(items, f), f(id)) == Position(items, id)
  {
    var renamed := RenamedItems(items, f);
    assert forall i :: 0 <= i < |items| ==> (renamed[i].record.id == f(id) <==> items[i].record.id == id);
    if Has(items, id) {
      var p := Position(items, id);
      assert renamed[p].record.id == f(id);
    }
  }

  lemma {:induction false} WithoutRenamed(items: seq<Item>, id: Id, f: Renaming)
    requires Injective(f)
    ensures Without(RenamedItems(items, f), f(id)) == RenamedItems(Without(items, id), f)
  {
    if items != [] {
      var n := |items| - 1;
      WithoutRenamed(items[..n], id, f);
      assert RenamedItems(items, f)[..n] == RenamedItems(items[..n], f);
    }
  }

  lemma CreatedRenamed(w: Workspace, id: Id, name: Option<string>, f: Renaming)
    ensures Created(RenamedWorkspace(w, f), f(id), name) == RenamedWorkspace(Created(w, id, name), f)
  {
    var items := w.items + [NewItem(w, id, name)];
    assert RenamedItems(items, f) == RenamedItems(w.items, f) + [RenamedItem(NewItem(w, id, name), f)];
  }

  lemma RestoredRenamed(w: Workspace, id: Id, mode: Mode, f: Renaming)
    requires Injective(f) && Has(w.items, id)
    ensures Has(RenamedItems(w.items, f), f(id))
    ensures Restored(RenamedWorkspace(w, f), f(id), mode) == RenamedWorkspace(Restored(w, id, mode), f)
  {
    FoundRenamed(w.items, id, f);
    var p := Position(w.items, id);
    assert RenamedItems(w.items, f)[..p + 1] == RenamedItems(w.items[..p + 1], f);
  }

  lemma DeletedRenamed(w: Workspace, id: Id, f: Renaming)
    requires Injective(f)
    ensures Deleted(RenamedWorkspace(w, f), f(id)) == RenamedWorkspace(Deleted(w, id), f)
  {
    FoundRenamed(w.items, id, f);
    WithoutRenamed(w.items, id, f);
    hide Without, Has, Position;
  }

  // ---- the whole store ----

  lemma BlankRenamed(f: Renaming)
    ensures RenamedWorkspace(Blank, f) == Blank
  {
    assert RenamedItems([], f) == [];
  }

  lemma AtRenamed(w: World, ws: WorkspaceId, f: Renaming)
    ensures At(RenamedWorld(w, f), ws) == RenamedWorkspace(At(w, ws), f)
  {
    BlankRenamed(f);
  }

  lemma PutRenamed(w: World, ws: WorkspaceId, x: Workspace, f: Renaming)
    ensures RenamedWorld(w[ws := x], f) == RenamedWorld(w, f)[ws := RenamedWorkspace(x, f)]
    ensures RenamedWorld(w - {ws}, f) == RenamedWorld(w, f) - {ws}
  {}

  lemma {:induction false} NextRenamed(w: World, op: Op, f: Renaming)
    requires Injective(f)
    ensures Next(RenamedWorld(w, f), RenamedOp(op, f)) == RenamedWorld(Next(w, op), f)
    ensures Answer(RenamedWorld(w, f), RenamedOp(op, f)) == RenamedReply(Answer(w, op), f)
  {
    var at := At(w, op.ws);
    AtRenamed(w, op.ws, f);
    PutRenamed(w, op.ws, At(Next(w, op), op.ws), f);
    if op.Restore? || op.Delete? || op.Fork? { FoundRenamed(at.items, op.id, f); }
    hide RenamedWorld, RenamedItems, Has, Position, Without;
    match op
    case Create(ws, id, name) => CreatedRenamed(at, id, name, f);
    case Restore(ws, id, mode) => if Has(at.items, id) { RestoredRenamed(at, id, mode, f); }
    case Delete(ws, id) => DeletedRenamed(at, id, f);
    case Fork(ws, id, into) => ForkRenamed(w, op, f);
    case List(_) => assert RenamedRecords(Records(at.items), f) == Records(RenamedItems(at.items, f));
    case _ =>
  }

  lemma ForkRenamed(w: World, op: Op, f: Renaming)
    requires Injective(f) && op.Fork?
    ensures Next(RenamedWorld(w, f), RenamedOp(op, f)) == RenamedWorld(Next(w, op), f)
  {
    AtRenamed(w, op.ws, f);
    AtRenamed(w, op.into, f);
    FoundRenamed(At(w, op.ws).items, op.id, f);
    PutRenamed(w, op.into, At(Next(w, op), op.into), f);
    hide RenamedWorld, Has, Position;
  }

  /** A renamed run ends in the renamed store and gets the renamed replies. */
  lemma {:induction false} RunRenamed(ops: seq<Op>, f: Renaming)
    requires Injective(f)
    ensures Run(RenamedOps(ops, f)) == RenamedWorld(Run(ops), f)
    ensures Answers(RenamedOps(ops, f)) == RenamedReplies(Answers(ops), f)
  {
    if ops != [] {
      var n := |ops| - 1;
      RunRenamed(ops[..n], f);
      NextRenamed(Run(ops[..n]), ops[n], f);
      assert RenamedOps(ops, f)[..n] == RenamedOps(ops[..n], f);
      hide Next, Answer, RenamedWorld, RenamedReply, RenamedOp;
    }
  }

  lemma ForksRenamed(ops: seq<Op>, f: Renaming)
    requires FreshForks(ops)
    ensures FreshForks(RenamedOps(ops, f))
  {
    var renamed := RenamedOps(ops, f);
    forall i, j | 0 <= i < j < |ops| && renamed[j].Fork? ensures !Touches(renamed[i], renamed[j].into) {
      assert !Touches(ops[i], ops[j].into);
    }
  }
}
