/** Theorems about every run of a checkpoint store: rollback is an exact
    inverse, links never form cycles, snapshots never change, workspaces do not
    interfere. */
module LineageRuns {
  import opened Wrappers
  import opened Lineage

  // ---- the creation log ----

  /** The checkpoints created in a workspace from step `from` on, in order. */
  function Log(ops: seq<Op>, from: nat, ws: WorkspaceId): seq<Item>
    requires from <= |ops|
  {
    if |ops| == from then []
    else
      var prefix, op := ops[..|ops| - 1], ops[|ops| - 1];
      Log(prefix, from, ws) + Logged(Run(prefix), op, ws)
  }

  function Logged(w: World, op: Op, ws: WorkspaceId): seq<Item> {
    if op.Create? && op.ws == ws then [NewItem(At(w, ws), op.id, op.name)] else []
  }

  /** `a` can be obtained from `b` by dropping elements. */
  predicate Subseq(a: seq<Item>, b: seq<Item>) {
    a == [] ||
    (b != [] && ((a[|a| - 1] == b[|b| - 1] && Subseq(a[..|a| - 1], b[..|b| - 1]))
                 || Subseq(a, b[..|b| - 1])))
  }

  ghost predicate Distinct(items: seq<Item>) {
    forall i, j :: 0 <= i < j < |items| ==> items[i].record.id != items[j].record.id
  }

  lemma {:induction false} SubseqRefl(a: seq<Item>)
    ensures Subseq(a, a)
  {
    if a != [] { SubseqRefl(a[..|a| - 1]); }
  }

  lemma {:induction false} SubseqTake(a: seq<Item>, b: seq<Item>, n: nat)
    requires Subseq(a, b) && n <= |a|
    ensures Subseq(a[..n], b)
    decreases |b|
  {
    if n == 0 {
    } else if Subseq(a, b[..|b| - 1]) {
      SubseqTake(a, b[..|b| - 1], n);
    } else if n == |a| {
      assert a[..n] == a;
    } else {
      SubseqTake(a[..|a| - 1], b[..|b| - 1], n);
      assert a[..|a| - 1][..n] == a[..n];
    }
  }

  lemma {:induction false} SubseqWithout(a: seq<Item>, b: seq<Item>, id: Id)
    requires Subseq(a, b)
    ensures Subseq(Without(a, id), b)
    decreases |b|
  {
    if a != [] {
      if Subseq(a, b[..|b| - 1]) {
        SubseqWithout(a, b[..|b| - 1], id);
      } else {
        SubseqWithout(a[..|a| - 1], b[..|b| - 1], id);
        var c := Without(a[..|a| - 1], id);
        if a[|a| - 1].record.id != id {
          assert (c + [a[|a| - 1]])[..|c|] == c;
        }
      }
    }
  }

  lemma {:induction false} SubseqIn(a: seq<Item>, b: seq<Item>, x: Item)
    requires Subseq(a, b) && x in a
    ensures x in b
    decreases |b|
  {
    if Subseq(a, b[..|b| - 1]) {
      SubseqIn(a, b[..|b| - 1], x);
    } else if x != a[|a| - 1] {
      SubseqIn(a[..|a| - 1], b[..|b| - 1], x);
    }
  }

  /** A subsequence of a concatenation splits the same way. */
  lemma {:induction false} SubseqSplit(s: seq<Item>, a: seq<Item>, b: seq<Item>) returns (n: nat)
    requires Subseq(s, a + b)
    ensures n <= |s| && Subseq(s[..n], a) && Subseq(s[n..], b)
    decreases |b|
  {
    if b == [] {
      assert a + b == a;
      n := |s|;
      assert s[..n] == s;
    } else if s == [] {
      n := 0;
    } else {
      var b' := b[..|b| - 1];
      assert (a + b)[..|a + b| - 1] == a + b';
      if Subseq(s, a + b') {
        n := SubseqSplit(s, a, b');
      } else {
        var s' := s[..|s| - 1];
        n := SubseqSplit(s', a, b');
        assert s'[..n] == s[..n] && s[n..][..|s| - n - 1] == s'[n..];
      }
    }
  }

  /** A subsequence that misses no id of a duplicate-free list is that list. */
  lemma {:induction false} SubseqFull(a: seq<Item>, b: seq<Item>)
    requires Subseq(a, b) && Distinct(b) && IdsOf(b) <= IdsOf(a)
    ensures a == b
    decreases |b|
  {
    if b != [] {
      var b', last := b[..|b| - 1], b[|b| - 1];
      assert last.record.id in IdsOf(b);
      var x :| x in a && x.record.id == last.record.id;
      SubseqIn(a, b, x);
      assert x == last;
      if Subseq(a, b') {
        SubseqIn(a, b', x);
      } else {
        var a' := a[..|a| - 1];
        forall id | id in IdsOf(b') ensures id in IdsOf(a') {
          var y :| y in b' && y.record.id == id;
          assert y in b && id in IdsOf(b);
          var z :| z in a && z.record.id == id;
          var i :| 0 <= i < |a| && a[i] == z;
          assert i != |a| - 1;
          assert a'[i] == z;
        }
        SubseqFull(a', b');
        assert a == a' + [last] && b == b' + [last];
      }
    }
  }

  // ---- the listing is always drawn from the creation log ----

  lemma StepEvolves(w: World, op: Op, ws: WorkspaceId, log: seq<Item>)
    requires Subseq(At(w, ws).items, log)
    ensures Subseq(At(Next(w, op), ws).items, log + Logged(w, op, ws))
  {
    hide Next, Position, Without, NewItem, Has, Subseq;
    var items := At(w, ws).items;
    assert log + [] == log;
    ItemsStep(w, op, ws);
    SubseqNone(log);
    if op.Create? && op.ws == ws {
      SubseqNext(items, log, NewItem(At(w, ws), op.id, op.name));
    } else if op.Delete? && op.ws == ws {
      SubseqWithout(items, log, op.id);
    } else if op.Restore? && op.ws == ws && Has(items, op.id) {
      SubseqTake(items, log, Position(items, op.id) + 1);
    }
  }

  lemma SubseqNone(log: seq<Item>)
    ensures Subseq([], log)
  {}

  lemma SubseqNext(items: seq<Item>, log: seq<Item>, item: Item)
    requires Subseq(items, log)
    ensures Subseq(items + [item], log + [item])
  {
    assert (log + [item])[..|log|] == log && (items + [item])[..|items|] == items;
  }

  /** What an operation makes of one workspace's list. */
  lemma ItemsStep(w: World, op: Op, ws: WorkspaceId)
    ensures At(Next(w, op), ws).items ==
            var items := At(w, ws).items;
            if op.ws != ws then items
            else match op
              case Create(_, id, name) => items + [NewItem(At(w, ws), id, name)]
              case Delete(_, id) => Without(items, id)
              case Restore(_, id, mode) =>
                if Has(items, id) && mode.Rollback? then items[..Position(items, id) + 1] else items
              case Remove(_) => []
              case _ => items
  {
    hide Position, Without, NewItem, Has;
  }

  /** From any point of a run on, a workspace lists only checkpoints it listed
      then or created since, unchanged and in creation order. */
  lemma {:induction false} ListingEvolves(ops: seq<Op>, from: nat, ws: WorkspaceId)
    requires from <= |ops|
    ensures Subseq(At(Run(ops), ws).items, At(Run(ops[..from]), ws).items + Log(ops, from, ws))
  {
    hide Subseq, Next;
    var was := At(Run(ops[..from]), ws).items;
    if |ops| == from {
      assert ops[..from] == ops;
      assert was + [] == was;
      SubseqRefl(was);
    } else {
      var prefix, op := ops[..|ops| - 1], ops[|ops| - 1];
      assert prefix[..from] == ops[..from];
      ListingEvolves(prefix, from, ws);
      var log, more := Log(prefix, from, ws), Logged(Run(prefix), op, ws);
      StepEvolves(Run(prefix), op, ws, was + log);
      assert was + (log + more) == (was + log) + more;
    }
  }

  /** Every logged checkpoint was made by a create of this workspace, from its
      disk and head of that moment. */
  lemma {:induction false} LogOrigin(ops: seq<Op>, from: nat, ws: WorkspaceId, item: Item) returns (k: nat)
    requires from <= |ops| && item in Log(ops, from, ws)
    ensures from <= k < |ops| && ops[k].Create? && ops[k].ws == ws
    ensures item == NewItem(At(Run(ops[..k]), ws), ops[k].id, ops[k].name)
  {
    var prefix, op := ops[..|ops| - 1], ops[|ops| - 1];
    if item in Log(prefix, from, ws) {
      k := LogOrigin(prefix, from, ws, item);
      assert prefix[..k] == ops[..k];
    } else {
      k := |ops| - 1;
    }
  }

  /** Snapshot immutability: in every run, each surviving checkpoint still holds
      the disk its workspace had, and names the head it had, when it was created. */
  lemma {:induction false} SnapshotsImmutable(ops: seq<Op>, ws: WorkspaceId, item: Item) returns (k: nat)
    requires item in At(Run(ops), ws).items
    ensures k < |ops| && ops[k] == Create(ws, item.record.id, item.record.name)
    ensures item.snapshot == At(Run(ops[..k]), ws).disk
    ensures item.record.source == At(Run(ops[..k]), ws).head
  {
    ListingEvolves(ops, 0, ws);
    assert At(Run(ops[..0]), ws).items + Log(ops, 0, ws) == Log(ops, 0, ws);
    SubseqIn(At(Run(ops), ws).items, Log(ops, 0, ws), item);
    k := LogOrigin(ops, 0, ws, item);
  }

  lemma {:induction false} LogDistinct(ops: seq<Op>, ws: WorkspaceId)
    requires Legal(ops)
    ensures Distinct(Log(ops, 0, ws))
  {
    if ops != [] {
      var prefix := ops[..|ops| - 1];
      LogDistinct(prefix, ws);
      forall item | item in Log(prefix, 0, ws) && ops[|ops| - 1].Create?
        ensures item.record.id != ops[|ops| - 1].id
      {
        var k := LogOrigin(prefix, 0, ws, item);
      }
    }
  }

  lemma {:induction false} SubseqDistinct(a: seq<Item>, b: seq<Item>)
    requires Subseq(a, b) && Distinct(b)
    ensures Distinct(a)
    decreases |b|
  {
    if a != [] {
      if Subseq(a, b[..|b| - 1]) {
        SubseqDistinct(a, b[..|b| - 1]);
      } else {
        SubseqDistinct(a[..|a| - 1], b[..|b| - 1]);
        forall i | 0 <= i < |a| - 1 ensures a[i].record.id != a[|a| - 1].record.id {
          assert a[..|a| - 1][i] == a[i];
          SubseqIn(a[..|a| - 1], b[..|b| - 1], a[i]);
        }
      }
    }
  }

  lemma {:induction false} ListingDistinct(ops: seq<Op>, ws: WorkspaceId)
    requires Legal(ops)
    ensures Distinct(At(Run(ops), ws).items)
  {
    ListingEvolves(ops, 0, ws);
    assert At(Run(ops[..0]), ws).items + Log(ops, 0, ws) == Log(ops, 0, ws);
    LogDistinct(ops, ws);
    SubseqDistinct(At(Run(ops), ws).items, Log(ops, 0, ws));
  }

  // ---- rollback ----

  /** Rollback is an exact inverse.  Take any run, and any checkpoint created in
      it at step `k`.  Rolling back to that checkpoint at the end of the run gives
      exactly the disk, list and head that held right after it was created, if and
      only if every checkpoint listed then is still listed. */
  lemma {:induction false} RollbackIsExactInverse(ops: seq<Op>, k: nat)
    requires Legal(ops) && k < |ops| && ops[k].Create?
    ensures var made := At(Run(ops[..k + 1]), ops[k].ws);
            var now := At(Run(ops), ops[k].ws);
            (IdsOf(made.items) <= IdsOf(now.items)) <==>
            (Has(now.items, ops[k].id) && Restored(now, ops[k].id, Rollback) == made)
  {
    var ws, id := ops[k].ws, ops[k].id;
    var made, now := At(Run(ops[..k + 1]), ws), At(Run(ops), ws);
    assert ops[..k + 1][..k] == ops[..k];
    assert made == Created(At(Run(ops[..k]), ws), id, ops[k].name);
    if IdsOf(made.items) <= IdsOf(now.items) {
      SurvivorsComeFirst(ops, k + 1, ws);
      ListingDistinct(ops, ws);
      RestoreToPrefix(At(Run(ops[..k]), ws), id, ops[k].name, now);
    }
    if Has(now.items, id) && Restored(now, id, Rollback) == made {
      RestoreOnlyDrops(now, id);
    }
  }

  lemma RestoreToPrefix(before: Workspace, id: Id, name: Option<string>, now: Workspace)
    requires Created(before, id, name).items <= now.items && Distinct(now.items)
    ensures Has(now.items, id) && Restored(now, id, Rollback) == Created(before, id, name)
  {
    var n := |before.items|;
    assert now.items[n] == Created(before, id, name).items[n] == NewItem(before, id, name);
    assert Position(now.items, id) == n;
    assert now.items[..n + 1] == Created(before, id, name).items;
  }

  lemma RestoreOnlyDrops(now: Workspace, id: Id)
    requires Has(now.items, id)
    ensures IdsOf(Restored(now, id, Rollback).items) <= IdsOf(now.items)
  {}

  /** What is created later never reuses an id already listed. */
  lemma LaterIdsDiffer(ops: seq<Op>, from: nat, ws: WorkspaceId, was: Item, item: Item)
    requires Legal(ops) && from <= |ops|
    requires was in At(Run(ops[..from]), ws).items && item in Log(ops, from, ws)
    ensures was.record.id != item.record.id
  {
    var i := SnapshotsImmutable(ops[..from], ws, was);
    var j := LogOrigin(ops, from, ws, item);
    assert i < j && ops[i].Create? && ops[j].Create?;
  }

  lemma SurvivorsComeFirst(ops: seq<Op>, from: nat, ws: WorkspaceId)
    requires Legal(ops) && from <= |ops|
    requires IdsOf(At(Run(ops[..from]), ws).items) <= IdsOf(At(Run(ops), ws).items)
    ensures At(Run(ops[..from]), ws).items <= At(Run(ops), ws).items
  {
    var earlier, now, log := At(Run(ops[..from]), ws).items, At(Run(ops), ws).items, Log(ops, from, ws);
    ListingEvolves(ops, from, ws);
    var n := SubseqSplit(now, earlier, log);
    var first, rest := now[..n], now[n..];
    assert now == first + rest;
    forall id | id in IdsOf(earlier) ensures id in IdsOf(first) {
      var x :| x in now && x.record.id == id;
      var y :| y in earlier && y.record.id == id;
      if x in rest {
        SubseqIn(rest, log, x);
        LaterIdsDiffer(ops, from, ws, y, x);
      }
    }
    ListingDistinct(ops[..from], ws);
    SubseqFull(first, earlier);
  }

  /** No explicit delete, and no removal, of a workspace's checkpoints from a step on. */
  ghost predicate Undeleted(ops: seq<Op>, from: nat, ws: WorkspaceId) {
    forall i :: from <= i < |ops| ==> !((ops[i].Delete? || ops[i].Remove?) && ops[i].ws == ws)
  }

  lemma RunStep(ops: seq<Op>, m: nat)
    requires m < |ops|
    ensures Run(ops[..m + 1]) == Next(Run(ops[..m]), ops[m])
  {
    assert ops[..m + 1][..m] == ops[..m];
  }

  /** Without deletes, what was listed when a checkpoint was created stays listed, in
      place, as long as the checkpoint itself does. */
  lemma {:induction false} SurvivesUpTo(ops: seq<Op>, k: nat, m: nat)
    requires Legal(ops) && k < m <= |ops| && ops[k].Create? && Undeleted(ops, k, ops[k].ws)
    ensures At(Run(ops[..k + 1]), ops[k].ws).items <= At(Run(ops[..m]), ops[k].ws).items
            || !Has(At(Run(ops[..m]), ops[k].ws).items, ops[k].id)
    decreases m
  {
    hide Run, Next, Has, At;
    if m > k + 1 {
      var ws, kept := ops[k].ws, At(Run(ops[..k + 1]), ops[k].ws).items;
      SurvivesUpTo(ops, k, m - 1);
      ListingDistinct(ops[..m - 1], ws);
      RunStep(ops, m - 1);
      CreatedLast(ops, k);
      SurvivesStep(Run(ops[..m - 1]), ops[m - 1], ws, kept, ops[k].id);
    }
  }

  lemma {:induction false} SurvivesUndeleted(ops: seq<Op>, k: nat)
    requires Legal(ops) && k < |ops| && ops[k].Create? && Undeleted(ops, k, ops[k].ws)
    ensures At(Run(ops[..k + 1]), ops[k].ws).items <= At(Run(ops), ops[k].ws).items
            || !Has(At(Run(ops), ops[k].ws).items, ops[k].id)
  {
    SurvivesUpTo(ops, k, |ops|);
    assert ops[..|ops|] == ops;
  }

  lemma CreatedLast(ops: seq<Op>, k: nat)
    requires k < |ops| && ops[k].Create?
    ensures var items := At(Run(ops[..k + 1]), ops[k].ws).items;
            items != [] && items[|items| - 1].record.id == ops[k].id
  {
    RunStep(ops, k);
    hide Run;
  }

  lemma SurvivesStep(w: World, op: Op, ws: WorkspaceId, kept: seq<Item>, id: Id)
    requires kept != [] && kept[|kept| - 1].record.id == id && Distinct(At(w, ws).items)
    requires kept <= At(w, ws).items || !Has(At(w, ws).items, id)
    requires !((op.Delete? || op.Remove?) && op.ws == ws) && (op.Create? ==> op.id != id)
    ensures kept <= At(Next(w, op), ws).items || !Has(At(Next(w, op), ws).items, id)
  {
    var items := At(w, ws).items;
    if op.Restore? && op.ws == ws && Has(items, op.id) && op.mode.Rollback? {
      var p := Position(items, op.id);
      if kept <= items && p + 1 < |kept| {
        assert items[|kept| - 1].record.id == id;
        assert forall i :: 0 <= i <= p ==> items[i].record.id != id;
      }
    }
  }

  /** After any run of writes, creates and restores that keeps the checkpoint, rolling
      back to it gives exactly the state it was created in. */
  lemma {:induction false} RollbackWithoutDeletes(ops: seq<Op>, k: nat)
    requires Legal(ops) && k < |ops| && ops[k].Create? && Undeleted(ops, k, ops[k].ws)
    requires Has(At(Run(ops), ops[k].ws).items, ops[k].id)
    ensures Restored(At(Run(ops), ops[k].ws), ops[k].id, Rollback) == At(Run(ops[..k + 1]), ops[k].ws)
  {
    SurvivesUndeleted(ops, k);
    var made, now := At(Run(ops[..k + 1]), ops[k].ws), At(Run(ops), ops[k].ws);
    assert forall it :: it in made.items ==> it in now.items;
    RollbackIsExactInverse(ops, k);
  }

  // ---- links ----

  /** The position of a checkpoint in the order of creation. */
  ghost function Age(log: seq<Item>, id: Id): nat {
    if Has(log, id) then Position(log, id) else |log|
  }

  /** Every head and every source link names a checkpoint created in this
      workspace, a link's strictly before its own. */
  ghost predicate LinksPointBack(log: seq<Item>, w: Workspace) {
    && (w.head.Some? ==> Has(log, w.head.value))
    && forall i :: 0 <= i < |log| && log[i].record.source.Some? ==> Has(log[..i], log[i].record.source.value)
  }

  lemma {:induction false} LinksAlwaysPointBack(ops: seq<Op>, ws: WorkspaceId)
    ensures LinksPointBack(Log(ops, 0, ws), At(Run(ops), ws))
  {
    if ops != [] {
      var prefix, op := ops[..|ops| - 1], ops[|ops| - 1];
      LinksAlwaysPointBack(prefix, ws);
      var w, log := At(Run(prefix), ws), Log(prefix, 0, ws);
      LinkStep(Run(prefix), op, ws, log) by {
        ListingEvolves(prefix, 0, ws);
        assert At(Run(prefix[..0]), ws).items + log == log;
      }
    }
  }

  lemma LinkStep(w: World, op: Op, ws: WorkspaceId, log: seq<Item>)
    requires LinksPointBack(log, At(w, ws)) && Subseq(At(w, ws).items, log)
    ensures LinksPointBack(log + Logged(w, op, ws), At(Next(w, op), ws))
  {
    var v, v', log' := At(w, ws), At(Next(w, op), ws), log + Logged(w, op, ws);
    forall i | 0 <= i < |log'| && log'[i].record.source.Some?
      ensures Has(log'[..i], log'[i].record.source.value)
    {
      if i == |log| {
        assert log'[..i] == log;
      } else {
        assert log'[..i] == log[..i];
      }
    }
    if v'.head.Some? {
      if op.Create? && op.ws == ws {
        assert log'[|log|].record.id == op.id;
      } else {
        assert log' == log;
        if op.Delete? && op.ws == ws && v.head == Some(op.id) {
          var x := v.items[Position(v.items, op.id)];
          SubseqIn(v.items, log, x);
          var i :| 0 <= i < |log| && log[i] == x;
          HasPrefix(log, i, v'.head.value);
        } else if op.Restore? && op.ws == ws && Has(v.items, op.id) {
          var x := v.items[Position(v.items, op.id)];
          SubseqIn(v.items, log, x);
        }
      }
    }
  }

  lemma HasPrefix(items: seq<Item>, n: nat, id: Id)
    requires n <= |items| && Has(items[..n], id)
    ensures Has(items, id) && Position(items, id) < n
  {
    var i :| 0 <= i < n && items[..n][i].record.id == id;
    assert items[i].record.id == id;
  }

  /** A chain of source links among the listed checkpoints of a workspace. */
  ghost predicate Chain(items: seq<Item>, chain: seq<Item>) {
    && (forall i :: 0 <= i < |chain| ==> chain[i] in items)
    && forall i :: 0 <= i < |chain| - 1 ==> chain[i].record.source == Some(chain[i + 1].record.id)
  }

  /** In every run, deletes included, no chain of sources is cyclic. */
  lemma {:induction false} ChainsAreAcyclic(ops: seq<Op>, ws: WorkspaceId, chain: seq<Item>)
    requires Legal(ops) && Chain(At(Run(ops), ws).items, chain)
    ensures forall i, j :: 0 <= i < j < |chain| ==> chain[i].record.id != chain[j].record.id
  {
    var log, items := Log(ops, 0, ws), At(Run(ops), ws).items;
    LinksAlwaysPointBack(ops, ws);
    LogDistinct(ops, ws);
    ListingEvolves(ops, 0, ws);
    assert At(Run(ops[..0]), ws).items + log == log;
    forall i | 0 <= i < |chain| ensures chain[i] in log {
      SubseqIn(items, log, chain[i]);
    }
    forall i, j | 0 <= i < j < |chain| ensures chain[i].record.id != chain[j].record.id {
      ChainDescends(log, At(Run(ops), ws), chain, i, j);
    }
  }

  lemma {:induction false} ChainDescends(log: seq<Item>, w: Workspace, chain: seq<Item>, i: nat, j: nat)
    requires Distinct(log) && LinksPointBack(log, w) && Chain(log, chain)
    requires i < j < |chain|
    ensures Age(log, chain[j].record.id) < Age(log, chain[i].record.id)
    decreases j - i
  {
    assert chain[i] in log;
    var p :| 0 <= p < |log| && log[p] == chain[i];
    assert Position(log, chain[i].record.id) == p;
    HasPrefix(log, p, chain[i + 1].record.id);
    if i + 1 < j { ChainDescends(log, w, chain, i + 1, j); }
  }

  /** Without explicit deletes the head and every link name a listed checkpoint,
      and a source is listed before its child. */
  ghost predicate Closed(w: Workspace) {
    && (w.head.Some? ==> Has(w.items, w.head.value))
    && forall i :: 0 <= i < |w.items| && w.items[i].record.source.Some? ==>
        Has(w.items[..i], w.items[i].record.source.value)
  }

  lemma {:induction false} ClosedWithoutDeletes(ops: seq<Op>, ws: WorkspaceId)
    requires forall i :: 0 <= i < |ops| && ops[i].Delete? ==> ops[i].ws != ws
    ensures Closed(At(Run(ops), ws))
  {
    if ops != [] {
      var prefix, op := ops[..|ops| - 1], ops[|ops| - 1];
      ClosedWithoutDeletes(prefix, ws);
      ClosedStep(Run(prefix), op, ws);
    }
  }

  lemma ClosedStep(w: World, op: Op, ws: WorkspaceId)
    requires Closed(At(w, ws)) && !(op.Delete? && op.ws == ws)
    ensures Closed(At(Next(w, op), ws))
  {
    var items, items' := At(w, ws).items, At(Next(w, op), ws).items;
    forall i | 0 <= i < |items'| && items'[i].record.source.Some?
      ensures Has(items'[..i], items'[i].record.source.value)
    {
      if i < |items| {
        assert items'[..i] == items[..i];
      } else {
        assert items'[..i] == items;
      }
    }
    if op.Create? && op.ws == ws {
      assert items'[|items|].record.id == op.id;
    } else if op.Restore? && op.ws == ws && Has(items, op.id) {
      assert items'[Position(items, op.id)].record.id == op.id;
    }
  }

  lemma {:induction false} AncestorsComeFirst(w: Workspace, chain: seq<Item>, n: nat)
    requires Closed(w) && Distinct(w.items) && n <= |w.items|
    requires chain != [] && Chain(w.items, chain) && chain[0] in w.items[..n]
    ensures chain[|chain| - 1] in w.items[..n]
  {
    if |chain| > 1 {
      ParentComesFirst(w, chain, n);
      hide Closed, Distinct;
      AncestorsComeFirst(w, chain[1..], n);
    }
  }

  lemma ParentComesFirst(w: Workspace, chain: seq<Item>, n: nat)
    requires Closed(w) && Distinct(w.items) && n <= |w.items|
    requires |chain| > 1 && Chain(w.items, chain) && chain[0] in w.items[..n]
    ensures chain[1] in w.items[..n]
  {
    hide Position;
    var items := w.items;
    assert exists i :: 0 <= i < n && items[i] == chain[0];
    var p :| 0 <= p < n && items[p] == chain[0];
    HasPrefix(items, p, chain[1].record.id);
    assert chain[1] in items;
    var q :| 0 <= q < |items| && items[q] == chain[1];
    assert q == Position(items, chain[1].record.id) < p;
    assert items[..n][q] == chain[1];
  }

  /** Hence rollback never deletes an ancestor of a checkpoint it keeps. */
  lemma {:induction false} RollbackKeepsAncestors(ops: seq<Op>, ws: WorkspaceId, id: Id, chain: seq<Item>)
    requires Legal(ops) && forall i :: 0 <= i < |ops| && ops[i].Delete? ==> ops[i].ws != ws
    requires Has(At(Run(ops), ws).items, id) && chain != [] && Chain(At(Run(ops), ws).items, chain)
    requires chain[0] in Restored(At(Run(ops), ws), id, Rollback).items
    ensures chain[|chain| - 1] in Restored(At(Run(ops), ws), id, Rollback).items
  {
    ClosedWithoutDeletes(ops, ws);
    ListingDistinct(ops, ws);
    AncestorsComeFirst(At(Run(ops), ws), chain, Position(At(Run(ops), ws).items, id) + 1);
  }

  /** Deletes can leave the head dangling: create `a` and its child `b`, delete
      `a`, then `b`, and the head names the missing `a`. */
  lemma {:induction false} DeletesCanDangle(w: Workspace, a: Id, b: Id)
    requires a != b && !Has(w.items, a) && !Has(w.items, b)
    ensures var v := Deleted(Deleted(Created(Created(w, a, None), b, None), a), b);
            v.head == Some(a) && !Has(v.items, a)
  {
    var two := Created(Created(w, a, None), b, None);
    var child := Item(Record(b, Some(a), None), w.disk);
    assert two.items[|w.items| + 1] == child;
    var left := Deleted(two, a);
    assert child in left.items && left.head == Some(b);
    forall it | it in left.items && it.record.id == b ensures it == child {
      assert it in two.items;
    }
  }

  // ---- isolation ----

  /** No operation on other workspaces changes this one's disk, list or head. */
  lemma {:induction false} WorkspacesAreIsolated(ops: seq<Op>, from: nat, ws: WorkspaceId)
    requires from <= |ops|
    requires forall i :: from <= i < |ops| ==> !Touches(ops[i], ws) || (ops[i].Fork? && ops[i].into != ws)
    ensures At(Run(ops), ws) == At(Run(ops[..from]), ws)
  {
    if |ops| == from {
      assert ops[..from] == ops;
    } else {
      var prefix := ops[..|ops| - 1];
      assert prefix[..from] == ops[..from];
      WorkspacesAreIsolated(prefix, from, ws);
      ElsewhereStep(Run(prefix), ops[|ops| - 1], ws);
      hide Next;
    }
  }

  lemma ElsewhereStep(w: World, op: Op, ws: WorkspaceId)
    requires !Touches(op, ws) || (op.Fork? && op.into != ws)
    ensures At(Next(w, op), ws) == At(w, ws)
  {
    hide Position, Without, NewItem;
  }

  /** A fork starts from the checkpoint's content, with no checkpoints and no
      head, and leaves its source as it was. */
  lemma {:induction false} ForkStartsClean(ops: seq<Op>, k: nat)
    requires FreshForks(ops) && k < |ops| && ops[k].Fork?
    requires Has(At(Run(ops[..k]), ops[k].ws).items, ops[k].id)
    ensures exists j :: 0 <= j < k && ops[j].Create? && ops[j].ws == ops[k].ws && ops[j].id == ops[k].id
                        && At(Run(ops[..k + 1]), ops[k].into) == Workspace(At(Run(ops[..j]), ops[k].ws).disk, [], None)
    ensures At(Run(ops[..k + 1]), ops[k].ws) == At(Run(ops[..k]), ops[k].ws)
  {
    var prefix, op := ops[..k], ops[k];
    assert ops[..k + 1][..k] == prefix;
    WorkspacesAreIsolated(prefix, 0, op.into);
    assert prefix[..0] == [];
    var items := At(Run(prefix), op.ws).items;
    var j := SnapshotsImmutable(prefix, op.ws, items[Position(items, op.id)]);
    assert prefix[..j] == ops[..j];
    assert At(Run(prefix), op.into) == Blank;
    assert op.into != op.ws;
  }
}
