/** What each operation of a run does to disk, list, head and reply, told by the history of
    the run alone: a checkpoint is what its create found, wherever it is put back. */
module LineageLaws {
  import opened Wrappers
  import opened Lineage
  import opened LineageRuns

  /** The step of a run that created a checkpoint. */
  function Birth(ops: seq<Op>, ws: WorkspaceId, id: Id): nat {
    if ops == [] then 0
    else
      var n := |ops| - 1;
      if ops[n].Create? && ops[n].ws == ws && ops[n].id == id then n else Birth(ops[..n], ws, id)
  }

  /** The disk and head a checkpoint was created from. */
  function DiskAtBirth(ops: seq<Op>, ws: WorkspaceId, id: Id): Disk {
    var k := Birth(ops, ws, id);
    if k <= |ops| then At(Run(ops[..k]), ws).disk else map[]
  }

  function HeadAtBirth(ops: seq<Op>, ws: WorkspaceId, id: Id): Option<Id> {
    var k := Birth(ops, ws, id);
    if k <= |ops| then At(Run(ops[..k]), ws).head else None
  }

  lemma {:induction false} BirthIs(ops: seq<Op>, k: nat)
    requires Legal(ops) && k < |ops| && ops[k].Create?
    ensures Birth(ops, ops[k].ws, ops[k].id) == k
  {
    if k < |ops| - 1 { BirthIs(ops[..|ops| - 1], k); }
  }

  ghost predicate Listed(ops: seq<Op>, ws: WorkspaceId, id: Id) {
    exists x :: x in At(Run(ops), ws).items && x.record.id == id
  }

  /** A listed checkpoint holds the disk and names the head of the moment of its birth. */
  lemma {:induction false} ListedFromBirth(ops: seq<Op>, ws: WorkspaceId, x: Item)
    requires Legal(ops) && x in At(Run(ops), ws).items
    ensures Birth(ops, ws, x.record.id) < |ops|
    ensures ops[Birth(ops, ws, x.record.id)] == Create(ws, x.record.id, x.record.name)
    ensures x.snapshot == DiskAtBirth(ops, ws, x.record.id) && x.record.source == HeadAtBirth(ops, ws, x.record.id)
  {
    var k := SnapshotsImmutable(ops, ws, x);
    BirthIs(ops, k);
  }

  lemma ListedIsHas(ops: seq<Op>, ws: WorkspaceId, id: Id)
    ensures Listed(ops, ws, id) <==> Has(At(Run(ops), ws).items, id)
  {
    var items := At(Run(ops), ws).items;
    if Has(items, id) {
      var i :| 0 <= i < |items| && items[i].record.id == id;
      assert items[i] in items;
    }
  }

  /** The item a listed id stands for, seen from its birth. */
  lemma {:induction false} FoundFromBirth(ops: seq<Op>, ws: WorkspaceId, id: Id)
    requires Legal(ops) && Has(At(Run(ops), ws).items, id)
    ensures var items := At(Run(ops), ws).items;
            var x := items[Position(items, id)];
            && Birth(ops, ws, id) < |ops| && ops[Birth(ops, ws, id)] == Create(ws, id, x.record.name)
            && x == Item(Record(id, HeadAtBirth(ops, ws, id), x.record.name), DiskAtBirth(ops, ws, id))
  {
    var items := At(Run(ops), ws).items;
    ListedFromBirth(ops, ws, items[Position(items, id)]);
  }

  // ---- the laws ----

  /** A disk changes only by being written, a file only by being written to, and by putting
      back the disk a checkpoint was created from. */
  lemma {:induction false} DiskLaw(ops: seq<Op>, k: nat, ws: WorkspaceId)
    requires Legal(ops) && k < |ops|
    ensures var before := At(Run(ops[..k]), ws).disk;
            At(Run(ops[..k + 1]), ws).disk ==
              match ops[k]
              case Write(w, disk) => if w == ws then disk else before
              case WriteFile(w, path, data) => if w == ws then before[path := data] else before
              case Restore(w, id, _) =>
                if w == ws && Listed(ops[..k], w, id) then DiskAtBirth(ops[..k], w, id) else before
              case Fork(w, id, into) =>
                if into == ws && Listed(ops[..k], w, id) then DiskAtBirth(ops[..k], w, id) else before
              case Remove(w) => if w == ws then map[] else before
              case _ => before
  {
    RunStep(ops, k);
    var op := ops[k];
    if op.Restore? || op.Fork? {
      ListedIsHas(ops[..k], op.ws, op.id);
      if Has(At(Run(ops[..k]), op.ws).items, op.id) { FoundFromBirth(ops[..k], op.ws, op.id); }
    }
    hide Run, Has, Listed, Position, DiskAtBirth, HeadAtBirth, Without;
  }

  /** The head is the checkpoint last created or restored; deleting it moves the head to
      what was the head when it was created. */
  lemma {:induction false} HeadLaw(ops: seq<Op>, k: nat, ws: WorkspaceId)
    requires Legal(ops) && k < |ops|
    ensures var before := At(Run(ops[..k]), ws).head;
            At(Run(ops[..k + 1]), ws).head ==
              match ops[k]
              case Create(w, id, _) => if w == ws then Some(id) else before
              case Restore(w, id, _) => if w == ws && Listed(ops[..k], w, id) then Some(id) else before
              case Delete(w, id) =>
                if w != ws || before != Some(id) then before
                else if Listed(ops[..k], w, id) then HeadAtBirth(ops[..k], w, id) else None
              case Fork(w, id, into) => if into == ws && Listed(ops[..k], w, id) then None else before
              case Remove(w) => if w == ws then None else before
              case _ => before
  {
    RunStep(ops, k);
    var op := ops[k];
    if op.Restore? || op.Fork? || op.Delete? {
      ListedIsHas(ops[..k], op.ws, op.id);
      if Has(At(Run(ops[..k]), op.ws).items, op.id) { FoundFromBirth(ops[..k], op.ws, op.id); }
    }
    hide Run, Has, Listed, Position, DiskAtBirth, HeadAtBirth, Without;
  }

  /** What a delete leaves: everything else, in the same order. */
  ghost predicate LeftWithout(items: seq<Item>, rest: seq<Item>, id: Id) {
    Subseq(rest, items) && forall x :: x in rest <==> x in items && x.record.id != id
  }

  /** What a rollback leaves: the list up to the checkpoint. */
  ghost predicate CutBehind(items: seq<Item>, rest: seq<Item>, id: Id) {
    rest != [] && rest <= items && rest[|rest| - 1].record.id == id
  }

  /** A create appends its checkpoint, linked to the head and holding the disk; a delete
      takes one out; a rollback cuts behind its target; nothing else changes a list but
      removing the workspace. */
  lemma {:induction false} ListLaw(ops: seq<Op>, k: nat, ws: WorkspaceId)
    requires k < |ops|
    ensures var before := At(Run(ops[..k]), ws);
            var after := At(Run(ops[..k + 1]), ws).items;
            match ops[k]
            case Create(w, id, name) =>
              after == before.items + if w == ws then [Item(Record(id, before.head, name), before.disk)] else []
            case Delete(w, id) => if w == ws then LeftWithout(before.items, after, id) else after == before.items
            case Restore(w, id, mode) =>
              if w == ws && mode.Rollback? && Listed(ops[..k], w, id) then CutBehind(before.items, after, id)
              else after == before.items
            case Remove(w) => after == if w == ws then [] else before.items
            case _ => after == before.items
  {
    hide Run, Next, Has, Listed, Subseq, Without, Position;
    RunStep(ops, k);
    var op, items := ops[k], At(Run(ops[..k]), ws).items;
    ItemsStep(Run(ops[..k]), op, ws);
    if op.Delete? {
      SubseqRefl(items);
      SubseqWithout(items, items, op.id);
    }
    if op.Restore? { ListedIsHas(ops[..k], ws, op.id); }
    assert items + [] == items;
  }

  /** What a caller is told: a create names the new checkpoint and its source, a list gives
      the records in order, a restore or fork of something unlisted is not found. */
  lemma {:induction false} ReplyLaw(ops: seq<Op>, k: nat)
    requires Legal(ops) && k < |ops|
    ensures var prefix, op := ops[..k], ops[k];
            var reply := Answers(ops)[k];
            match op
            case Create(ws, id, name) => reply == Checkpoint(Record(id, At(Run(prefix), ws).head, name))
            case List(ws) =>
              && reply.Listing? && |reply.records| == |At(Run(prefix), ws).items|
              && forall i :: 0 <= i < |reply.records| ==> reply.records[i] == At(Run(prefix), ws).items[i].record
            case Restore(ws, id, _) =>
              if Listed(prefix, ws, id) then
                && reply.Checkpoint? && reply.record.id == id && reply.record.source == HeadAtBirth(prefix, ws, id)
                && Birth(prefix, ws, id) < k && ops[Birth(prefix, ws, id)] == Create(ws, id, reply.record.name)
              else reply == NotFound
            case Fork(ws, id, _) => reply == if Listed(prefix, ws, id) then Done else NotFound
            case _ => reply == Done
  {
    AnswerAt(ops, k);
    var op := ops[k];
    if op.Restore? || op.Fork? {
      ListedIsHas(ops[..k], op.ws, op.id);
      if Has(At(Run(ops[..k]), op.ws).items, op.id) { FoundFromBirth(ops[..k], op.ws, op.id); }
    }
    hide Run, Answers, Has, Listed, Position, DiskAtBirth, HeadAtBirth;
  }

  lemma {:induction false} AnswerAt(ops: seq<Op>, k: nat)
    requires k < |ops|
    ensures Answers(ops)[k] == Answer(Run(ops[..k]), ops[k])
  {
    var n := |ops| - 1;
    if k < n {
      AnswerAt(ops[..n], k);
      assert ops[..n][..k] == ops[..k];
    }
  }

  /** Restoring a listed checkpoint, in either mode, gives back the disk it was created
      from and makes it the head; replacing leaves the list alone. */
  lemma {:induction false} RestoreReturns(ops: seq<Op>, k: nat) returns (j: nat)
    requires Legal(ops) && k < |ops| && ops[k].Restore? && Listed(ops[..k], ops[k].ws, ops[k].id)
    ensures j < k && ops[j].Create? && ops[j].ws == ops[k].ws && ops[j].id == ops[k].id
    ensures var ws, after := ops[k].ws, At(Run(ops[..k + 1]), ops[k].ws);
            && after.disk == At(Run(ops[..j]), ws).disk && after.head == Some(ops[k].id)
            && (ops[k].mode.Replace? ==> after.items == At(Run(ops[..k]), ws).items)
            && (ops[k].mode.Rollback? ==> CutBehind(At(Run(ops[..k]), ws).items, after.items, ops[k].id))
  {
    var ws, id := ops[k].ws, ops[k].id;
    DiskLaw(ops, k, ws);
    HeadLaw(ops, k, ws);
    ListLaw(ops, k, ws);
    ListedIsHas(ops[..k], ws, id);
    FoundFromBirth(ops[..k], ws, id);
    j := Birth(ops[..k], ws, id);
    assert ops[..k][..j] == ops[..j] && ops[..k][j] == ops[j];
  }

  /** A checkpoint's source is the checkpoint last created or restored before it, as long as
      nothing was deleted, forked over or removed in between. */
  lemma {:induction false} SourceIsLastVisited(ops: seq<Op>, i: nat, k: nat)
    requires Legal(ops) && i < k < |ops| && ops[k].Create?
    requires ops[i].ws == ops[k].ws && (ops[i].Create? || (ops[i].Restore? && Listed(ops[..i], ops[i].ws, ops[i].id)))
    requires forall m :: i < m < k && Touches(ops[m], ops[k].ws) ==>
               ops[m].Write? || ops[m].WriteFile? || ops[m].List? || (ops[m].Fork? && ops[m].into != ops[k].ws)
    ensures Answers(ops)[k] == Checkpoint(Record(ops[k].id, Some(ops[i].id), ops[k].name))
  {
    HeadStays(ops, i, k);
    ReplyLaw(ops, k);
  }

  lemma {:induction false} HeadStays(ops: seq<Op>, i: nat, k: nat)
    requires Legal(ops) && i < k <= |ops|
    requires ops[i].Create? || (ops[i].Restore? && Listed(ops[..i], ops[i].ws, ops[i].id))
    requires forall m :: i < m < k && Touches(ops[m], ops[i].ws) ==>
               ops[m].Write? || ops[m].WriteFile? || ops[m].List? || (ops[m].Fork? && ops[m].into != ops[i].ws)
    ensures At(Run(ops[..k]), ops[i].ws).head == Some(ops[i].id)
    decreases k
  {
    hide Run, Listed;
    HeadLaw(ops, k - 1, ops[i].ws);
    if k > i + 1 { HeadStays(ops, i, k - 1); }
  }
}
