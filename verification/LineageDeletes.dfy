/** What explicit deletes do to the links between checkpoints. */
module LineageDeletes {
  import opened Wrappers
  import opened Lineage
  import opened LineageLists
  import opened LineageRuns

  /** No listed checkpoint names this one as its source. */
  ghost predicate Childless(items: seq<Item>, id: Id) {
    forall i :: 0 <= i < |items| ==> items[i].record.source != Some(id)
  }

  function Cut(items: seq<Item>, p: nat): seq<Item>
    requires p < |items|
  {
    items[..p] + items[p + 1..]
  }

  lemma DeletedItems(w: Workspace, id: Id)
    requires Distinct(w.items) && Has(w.items, id)
    ensures Deleted(w, id).items == Cut(w.items, Position(w.items, id))
  {
    hide Without, Has, Position;
    var p := Position(w.items, id);
    var before, x, after := w.items[..p], w.items[p], w.items[p + 1..];
    assert w.items == before + ([x] + after);
    WithoutOne(before, x, after);
  }

  /** Taking out the entry at `p` keeps what names another entry before `o`. */
  lemma StillBefore(items: seq<Item>, p: nat, o: nat, id: Id)
    requires p < |items| && o <= |items| && Has(items[..o], id) && items[p].record.id != id
    ensures Has(Cut(items, p)[..if o <= p then o else o - 1], id)
  {
    var rest := Cut(items, p);
    var q :| 0 <= q < o && items[..o][q].record.id == id;
    var n, q' := if o <= p then o else o - 1, if q < p then q else q - 1;
    assert q != p && rest[..n][q'] == items[q];
  }

  /** Every source is listed before its child. */
  ghost predicate Linked(items: seq<Item>) {
    forall i :: 0 <= i < |items| && items[i].record.source.Some? ==> Has(items[..i], items[i].record.source.value)
  }

  lemma {:induction false} CutKeepsLinks(items: seq<Item>, p: nat)
    requires Linked(items) && p < |items| && Childless(items, items[p].record.id)
    ensures Linked(Cut(items, p))
  {
    hide Has;
    var rest := Cut(items, p);
    forall i | 0 <= i < |rest| && rest[i].record.source.Some? ensures Has(rest[..i], rest[i].record.source.value) {
      var o := if i < p then i else i + 1;
      assert rest[i] == items[o];
      StillBefore(items, p, o, rest[i].record.source.value);
    }
  }

  lemma {:induction false} CutKeepsHead(items: seq<Item>, p: nat, head: Option<Id>)
    requires Linked(items) && p < |items| && Childless(items, items[p].record.id)
               && (head.Some? ==> Has(items, head.value))
    ensures var head' := if head == Some(items[p].record.id) then items[p].record.source else head;
            head'.Some? ==> Has(Cut(items, p), head'.value)
  {
    hide Has;
    var rest := Cut(items, p);
    assert items[..|items|] == items && rest[..|rest|] == rest;
    if head == Some(items[p].record.id) {
      var source := items[p].record.source;
      if source.Some? {
        StillBefore(items, p, p, source.value);
        HasPrefix(rest, p, source.value);
      }
    } else if head.Some? {
      StillBefore(items, p, |items|, head.value);
    }
  }

  /** A closed list stays closed under a delete without children. */
  lemma {:induction false} ChildlessKeepsClosed(w: Workspace, id: Id)
    requires Closed(w) && Distinct(w.items) && Has(w.items, id) && Childless(w.items, id)
    ensures Closed(Deleted(w, id))
  {
    hide Has, Without, Position, Cut, Distinct, Childless;
    var p := Position(w.items, id);
    DeletedItems(w, id);
    CutKeepsLinks(w.items, p);
    CutKeepsHead(w.items, p, w.head);
  }

  /** A delete of a checkpoint with a child leaves the child's link dangling. */
  lemma {:induction false} ChildDangles(w: Workspace, id: Id, o: nat)
    requires Closed(w) && Distinct(w.items) && o < |w.items| && w.items[o].record.source == Some(id)
    ensures !Closed(Deleted(w, id))
  {
    hide Without, Position, Cut, Has, Distinct, Linked;
    HasPrefix(w.items, o, id);
    CutDangles(w.items, Position(w.items, id), o);
    DeletedItems(w, id);
    ClosedIsLinked(Deleted(w, id));
  }

  lemma ClosedIsLinked(w: Workspace)
    ensures Closed(w) ==> Linked(w.items)
  {}

  lemma CutDangles(items: seq<Item>, p: nat, o: nat)
    requires Distinct(items) && p < o < |items| && items[o].record.source == Some(items[p].record.id)
    ensures !Linked(Cut(items, p))
  {
    var rest := Cut(items, p);
    var before := rest[..o - 1];
    assert rest[o - 1] == items[o];
    forall i | 0 <= i < |before| ensures before[i].record.id != items[p].record.id {
      assert before[i] == if i < p then items[i] else items[i + 1];
    }
  }

  /** A delete keeps head and links closed if and only if no listed checkpoint has the
      deleted one as its source. */
  lemma {:induction false} DeleteKeepsClosedIff(w: Workspace, id: Id)
    requires Closed(w) && Distinct(w.items)
    ensures Closed(Deleted(w, id)) <==> Childless(w.items, id)
  {
    if !Childless(w.items, id) {
      var o :| 0 <= o < |w.items| && w.items[o].record.source == Some(id);
      ChildDangles(w, id, o);
    } else if Has(w.items, id) {
      ChildlessKeepsClosed(w, id);
    } else {
      WithoutAbsent(w.items, id);
    }
  }

  /** Every delete of the workspace hits a checkpoint without listed children. */
  ghost predicate DeletesChildless(ops: seq<Op>, ws: WorkspaceId) {
    forall i :: 0 <= i < |ops| && ops[i].Delete? && ops[i].ws == ws ==>
      Childless(At(Run(ops[..i]), ws).items, ops[i].id)
  }

  /** In every run whose deletes each hit a childless checkpoint, head and links name
      listed checkpoints, a source before its child. */
  lemma {:induction false} ClosedWithChildlessDeletes(ops: seq<Op>, ws: WorkspaceId)
    requires Legal(ops) && DeletesChildless(ops, ws)
    ensures Closed(At(Run(ops), ws))
  {
    if ops != [] {
      var n := |ops| - 1;
      var prefix, op := ops[..n], ops[n];
      assert forall i :: 0 <= i < n ==> prefix[..i] == ops[..i];
      ClosedWithChildlessDeletes(prefix, ws);
      if op.Delete? && op.ws == ws {
        ListingDistinct(prefix, ws);
        DeleteKeepsClosedIff(At(Run(prefix), ws), op.id);
      } else {
        ClosedStep(Run(prefix), op, ws);
      }
    }
  }

  /** The first delete that hits a checkpoint with children opens the links. */
  lemma {:induction false} ParentDeleteOpens(ops: seq<Op>, ws: WorkspaceId, k: nat)
    requires Legal(ops) && k < |ops| && ops[k].Delete? && ops[k].ws == ws && DeletesChildless(ops[..k], ws)
    ensures Closed(At(Run(ops[..k + 1]), ws)) <==> Childless(At(Run(ops[..k]), ws).items, ops[k].id)
  {
    assert ops[..k + 1][..k] == ops[..k];
    ClosedWithChildlessDeletes(ops[..k], ws);
    ListingDistinct(ops[..k], ws);
    DeleteKeepsClosedIff(At(Run(ops[..k]), ws), ops[k].id);
  }
}
