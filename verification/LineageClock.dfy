/** Checkpoint lists under any clock.

    The store lists checkpoints by the time of their creation, then by id.  Under a clock
    that stands still or goes back a new checkpoint need not come last.  This module says
    what the store's runs are then, exactly when they are the runs of Lineage.dfy, and
    exactly when rollback still undoes what came after a checkpoint. */
module LineageClock {
  import opened Wrappers
  import opened Lineage
  import opened LineageRuns

  type Times = map<Id, nat>

  datatype Clocked = Clocked(world: World, times: Times)

  function TimeOf(times: Times, id: Id): nat { if id in times then times[id] else 0 }

  /** The order of a list: creation time, then id. */
  predicate Earlier(times: Times, a: Id, b: Id) {
    TimeOf(times, a) < TimeOf(times, b) || (TimeOf(times, a) == TimeOf(times, b) && a < b)
  }

  /** A new checkpoint at its place in a list. */
  function Placed(items: seq<Item>, x: Item, times: Times): seq<Item> {
    if items == [] then [x]
    else
      var init, last := items[..|items| - 1], items[|items| - 1];
      if Earlier(times, last.record.id, x.record.id) then items + [x] else Placed(init, x, times) + [last]
  }

  lemma PlacedNext(items: seq<Item>, last: Item, x: Item, times: Times)
    ensures Placed(items + [last], x, times) ==
            if Earlier(times, last.record.id, x.record.id) then items + [last] + [x]
              else Placed(items, x, times) + [last]
  {
    assert (items + [last])[..|items|] == items;
  }

  function CreatedAt(w: Workspace, id: Id, name: Option<string>, times: Times): Workspace {
    w.(items := Placed(w.items, NewItem(w, id, name), times), head := Some(id))
  }

  function ClockedNext(c: Clocked, op: Op, now: nat): Clocked {
    if op.Create? then
      var times := c.times[op.id := now];
      Clocked(c.world[op.ws := CreatedAt(At(c.world, op.ws), op.id, op.name, times)], times)
    else Clocked(Next(c.world, op), c.times)
  }

  /** The store after a run, each operation at its time. */
  function ClockedRun(ops: seq<Op>, clock: seq<nat>): Clocked
    requires |clock| == |ops|
  {
    if ops == [] then Clocked(map[], map[])
    else
      var n := |ops| - 1;
      ClockedNext(ClockedRun(ops[..n], clock[..n]), ops[n], clock[n])
  }

  function ClockedAnswers(ops: seq<Op>, clock: seq<nat>): (r: seq<Reply>)
    requires |clock| == |ops|
    ensures |r| == |ops|
  {
    if ops == [] then []
    else
      var n := |ops| - 1;
      ClockedAnswers(ops[..n], clock[..n]) + [Answer(ClockedRun(ops[..n], clock[..n]).world, ops[n])]
  }

  function ItemsAt(ops: seq<Op>, clock: seq<nat>, ws: WorkspaceId): seq<Item>
    requires |clock| == |ops|
  {
    At(ClockedRun(ops, clock).world, ws).items
  }

  // ---- lists in order ----

  ghost predicate InOrder(times: Times, items: seq<Item>) {
    forall i, j :: 0 <= i < j < |items| ==> Earlier(times, items[i].record.id, items[j].record.id)
  }

  lemma {:induction false} PlacedMembers(items: seq<Item>, x: Item, times: Times)
    ensures forall y :: y in Placed(items, x, times) <==> y == x || y in items
  {
    if items != [] {
      var init, last := items[..|items| - 1], items[|items| - 1];
      assert items == init + [last];
      PlacedMembers(init, x, times);
    }
  }

  lemma {:induction false} PlacedInOrder(items: seq<Item>, x: Item, times: Times)
    requires InOrder(times, items) && forall i :: 0 <= i < |items| ==> items[i].record.id != x.record.id
    ensures InOrder(times, Placed(items, x, times))
  {
    if items != [] {
      var init, last := items[..|items| - 1], items[|items| - 1];
      assert items == init + [last];
      if !Earlier(times, last.record.id, x.record.id) {
        PlacedInOrder(init, x, times);
        PlacedMembers(init, x, times);
        var placed := Placed(init, x, times);
        forall i | 0 <= i < |placed| ensures Earlier(times, placed[i].record.id, last.record.id) {
          assert placed[i] in placed;
        }
      }
    }
  }

  /** All listed are earlier than the new one. */
  ghost predicate Ahead(items: seq<Item>, id: Id, times: Times) {
    forall i :: 0 <= i < |items| ==> Earlier(times, items[i].record.id, id)
  }

  lemma PlacedLast(items: seq<Item>, x: Item, times: Times)
    requires InOrder(times, items) && forall i :: 0 <= i < |items| ==> items[i].record.id != x.record.id
    ensures Placed(items, x, times) == items + [x] <==> Ahead(items, x.record.id, times)
  {
    if items != [] && Placed(items, x, times) == items + [x] {
      PlacedInOrder(items, x, times);
      var all := items + [x];
      forall i | 0 <= i < |items| ensures Earlier(times, items[i].record.id, x.record.id) {
        assert all[i] == items[i] && all[|items|] == x;
      }
    }
  }

  lemma BeforeLast(items: seq<Item>, times: Times, y: Item)
    requires items != [] && InOrder(times, items) && y in items
    ensures y == items[|items| - 1] || Earlier(times, y.record.id, items[|items| - 1].record.id)
  {
    hide Earlier;
    var i :| 0 <= i < |items| && items[i] == y;
  }

  lemma InitMembers(items: seq<Item>, times: Times, y: Item)
    requires items != [] && InOrder(times, items)
    ensures y in items[..|items| - 1] <==> y in items && y != items[|items| - 1]
  {
    assert items == items[..|items| - 1] + [items[|items| - 1]];
  }

  lemma LastsAgree(a: seq<Item>, b: seq<Item>, times: Times)
    requires InOrder(times, a) && InOrder(times, b) && a != [] && b != []
    requires a[|a| - 1] in b && b[|b| - 1] in a
    ensures a[|a| - 1] == b[|b| - 1]
  {
    BeforeLast(a, times, b[|b| - 1]);
    BeforeLast(b, times, a[|a| - 1]);
    hide InOrder;
  }

  lemma InitInOrder(items: seq<Item>, times: Times, n: nat)
    requires InOrder(times, items) && n <= |items|
    ensures InOrder(times, items[..n])
  {}

  /** A list in order is determined by its members. */
  lemma {:induction false} OrderUnique(a: seq<Item>, b: seq<Item>, times: Times)
    requires InOrder(times, a) && InOrder(times, b) && forall x :: x in a <==> x in b
    ensures a == b
  {
    hide InOrder;
    assert |a| > 0 ==> a[|a| - 1] in b;
    assert |b| > 0 ==> b[|b| - 1] in a;
    if a != [] {
      var m, n := |a| - 1, |b| - 1;
      LastsAgree(a, b, times);
      InitInOrder(a, times, m);
      InitInOrder(b, times, n);
      forall y ensures y in a[..m] <==> y in b[..n] {
        InitMembers(a, times, y);
        InitMembers(b, times, y);
      }
      OrderUnique(a[..m], b[..n], times);
      assert a == a[..m] + [a[m]] && b == b[..n] + [b[n]];
    }
  }

  lemma {:induction false} WithoutInOrder(items: seq<Item>, id: Id, times: Times)
    requires InOrder(times, items)
    ensures InOrder(times, Without(items, id))
  {
    hide Earlier;
    if items != [] {
      var init, last := items[..|items| - 1], items[|items| - 1];
      WithoutInOrder(init, id, times);
      var rest := Without(init, id);
      forall i | 0 <= i < |rest| ensures Earlier(times, rest[i].record.id, last.record.id) {
        assert rest[i] in init;
        var j :| 0 <= j < |init| && init[j] == rest[i];
        assert items[j] == init[j];
      }
    }
  }

  // ---- runs ----

  lemma OthersShrink(w: World, op: Op, ws: WorkspaceId)
    requires !op.Create?
    ensures forall x :: x in At(Next(w, op), ws).items ==> x in At(w, ws).items
    ensures forall times :: InOrder(times, At(w, ws).items) ==> InOrder(times, At(Next(w, op), ws).items)
  {
    hide Next, Earlier;
    ItemsStep(w, op, ws);
    if op.Delete? && op.ws == ws {
      forall times | InOrder(times, At(w, ws).items) ensures InOrder(times, At(Next(w, op), ws).items) {
        WithoutInOrder(At(w, ws).items, op.id, times);
      }
    }
  }

  /** Every listed checkpoint was created by the run, from the disk and head of that
      moment, and is listed under the time of that moment. */
  lemma {:induction false} ClockedOrigin(ops: seq<Op>, clock: seq<nat>, ws: WorkspaceId, x: Item) returns (k: nat)
    requires |clock| == |ops| && x in ItemsAt(ops, clock, ws)
    ensures k < |ops| && ops[k] == Create(ws, x.record.id, x.record.name)
    ensures x == NewItem(At(ClockedRun(ops[..k], clock[..k]).world, ws), x.record.id, x.record.name)
  {
    var n := |ops| - 1;
    var c, op := ClockedRun(ops[..n], clock[..n]), ops[n];
    if x in At(c.world, ws).items {
      k := ClockedOrigin(ops[..n], clock[..n], ws, x);
      assert ops[..n][..k] == ops[..k] && clock[..n][..k] == clock[..k];
    } else {
      k := n;
      if op.Create? {
        var w := At(c.world, op.ws);
        PlacedMembers(w.items, NewItem(w, op.id, op.name), c.times[op.id := clock[n]]);
      } else {
        OthersShrink(c.world, op, ws);
      }
    }
  }

  lemma {:induction false} TimesKept(ops: seq<Op>, clock: seq<nat>, k: nat)
    requires |clock| == |ops| && Legal(ops) && k < |ops| && ops[k].Create?
    ensures TimeOf(ClockedRun(ops, clock).times, ops[k].id) == clock[k]
  {
    if k < |ops| - 1 {
      var n := |ops| - 1;
      TimesKept(ops[..n], clock[..n], k);
    }
  }

  lemma SameTimes(times: Times, times': Times, items: seq<Item>)
    requires InOrder(times, items)
    requires forall i :: 0 <= i < |items| ==> TimeOf(times', items[i].record.id) == TimeOf(times, items[i].record.id)
    ensures InOrder(times', items)
  {}

  /** Listed ids differ from the one a later create brings. */
  lemma {:induction false} FreshId(ops: seq<Op>, clock: seq<nat>, ws: WorkspaceId)
    requires |clock| == |ops| && Legal(ops) && ops != [] && ops[|ops| - 1].Create?
    ensures forall x :: x in ItemsAt(ops[..|ops| - 1], clock[..|ops| - 1], ws) ==> x.record.id != ops[|ops| - 1].id
  {
    var n := |ops| - 1;
    forall x | x in ItemsAt(ops[..n], clock[..n], ws) ensures x.record.id != ops[n].id {
      var k := ClockedOrigin(ops[..n], clock[..n], ws, x);
      assert ops[k] == ops[..n][k];
    }
  }

  /** Every list is in order, in every run. */
  lemma {:induction false} ListsInOrder(ops: seq<Op>, clock: seq<nat>, ws: WorkspaceId)
    requires |clock| == |ops| && Legal(ops)
    ensures InOrder(ClockedRun(ops, clock).times, ItemsAt(ops, clock, ws))
  {
    if ops != [] {
      var n := |ops| - 1;
      var c, op := ClockedRun(ops[..n], clock[..n]), ops[n];
      var items := At(c.world, ws).items;
      ListsInOrder(ops[..n], clock[..n], ws);
      hide InOrder, Earlier;
      if op.Create? {
        FreshId(ops, clock, ws);
        assert forall i :: 0 <= i < |items| ==> items[i] in items;
        var times := c.times[op.id := clock[n]];
        SameTimes(c.times, times, items);
        if op.ws == ws { PlacedInOrder(items, NewItem(At(c.world, ws), op.id, op.name), times); }
      } else {
        OthersShrink(c.world, op, ws);
      }
    }
  }

  /** A create under any clock adds exactly its checkpoint to the list, linked to the head
      and holding the disk, at the place its time gives it, and becomes the head. */
  lemma {:induction false} CreateUnderAnyClock(ops: seq<Op>, clock: seq<nat>, k: nat)
    requires |clock| == |ops| && Legal(ops) && k < |ops| && ops[k].Create?
    ensures var before := At(ClockedRun(ops[..k], clock[..k]).world, ops[k].ws);
            var c := ClockedRun(ops[..k + 1], clock[..k + 1]);
            var after := At(c.world, ops[k].ws);
            && after.disk == before.disk && after.head == Some(ops[k].id) && TimeOf(c.times, ops[k].id) == clock[k]
            && InOrder(c.times, after.items)
            && forall x :: x in after.items <==>
                x in before.items || x == Item(Record(ops[k].id, before.head, ops[k].name), before.disk)
  {
    var upto, time := ops[..k + 1], clock[..k + 1];
    ListsInOrder(upto, time, ops[k].ws);
    assert upto[..k] == ops[..k] && time[..k] == clock[..k];
    var c := ClockedRun(ops[..k], clock[..k]);
    var w := At(c.world, ops[k].ws);
    PlacedMembers(w.items, NewItem(w, ops[k].id, ops[k].name), c.times[ops[k].id := clock[k]]);
    hide Placed, InOrder, Earlier;
  }

  // ---- when the clock does not matter ----

  /** Every create found the clock ahead of the checkpoints listed then. */
  ghost predicate AllAhead(ops: seq<Op>, clock: seq<nat>)
    requires |clock| == |ops|
  {
    forall k :: 0 <= k < |ops| && ops[k].Create? ==> CreateAhead(ops, clock, k)
  }

  ghost predicate CreateAhead(ops: seq<Op>, clock: seq<nat>, k: nat)
    requires k < |ops| == |clock| && ops[k].Create?
  {
    var c := ClockedRun(ops[..k], clock[..k]);
    Ahead(At(c.world, ops[k].ws).items, ops[k].id, c.times[ops[k].id := clock[k]])
  }

  lemma AheadPrefix(ops: seq<Op>, clock: seq<nat>, n: nat)
    requires |clock| == |ops| && n <= |ops| && AllAhead(ops, clock)
    ensures AllAhead(ops[..n], clock[..n])
  {
    forall k | 0 <= k < n && ops[k].Create? ensures CreateAhead(ops[..n], clock[..n], k) {
      assert ops[..n][..k] == ops[..k] && clock[..n][..k] == clock[..k];
      assert CreateAhead(ops, clock, k);
    }
  }

  /** One create under the clock is the specified one exactly when the clock is ahead. */
  lemma {:induction false} CreateAgrees(ops: seq<Op>, clock: seq<nat>, k: nat)
    requires |clock| == |ops| && Legal(ops) && k < |ops| && ops[k].Create?
    ensures var c := ClockedRun(ops[..k], clock[..k]);
            ClockedNext(c, ops[k], clock[k]).world == Next(c.world, ops[k]) <==> CreateAhead(ops, clock, k)
  {
    var op, upto, time := ops[k], ops[..k + 1], clock[..k + 1];
    assert upto[..k] == ops[..k] && time[..k] == clock[..k];
    var c := ClockedRun(ops[..k], clock[..k]);
    var w, times := At(c.world, op.ws), c.times[op.id := clock[k]];
    ListsInOrder(ops[..k], clock[..k], op.ws);
    FreshId(upto, time, op.ws);
    assert forall i :: 0 <= i < |w.items| ==> w.items[i] in w.items;
    SameTimes(c.times, times, w.items);
    var x := NewItem(w, op.id, op.name);
    PlacedLast(w.items, x, times);
    assert ClockedNext(c, op, clock[k]).world[op.ws] == CreatedAt(w, op.id, op.name, times);
    assert Next(c.world, op)[op.ws] == Created(w, op.id, op.name);
    hide Placed, InOrder, Ahead, NewItem;
  }

  /** When every create is ahead, the store's runs are the specified ones. */
  lemma {:induction false} AheadRunsAgree(ops: seq<Op>, clock: seq<nat>)
    requires |clock| == |ops| && Legal(ops) && AllAhead(ops, clock)
    ensures ClockedRun(ops, clock).world == Run(ops) && ClockedAnswers(ops, clock) == Answers(ops)
  {
    if ops != [] {
      var n := |ops| - 1;
      AheadPrefix(ops, clock, n);
      AheadRunsAgree(ops[..n], clock[..n]);
      if ops[n].Create? { CreateAgrees(ops, clock, n); }
      hide Next, CreateAhead, CreatedAt;
    }
  }

  /** Only then: if the lists agree all along the run, every create was ahead. */
  lemma {:induction false} AgreeingRunsAreAhead(ops: seq<Op>, clock: seq<nat>)
    requires |clock| == |ops| && Legal(ops)
    requires forall n :: 0 <= n <= |ops| ==> ClockedRun(ops[..n], clock[..n]).world == Run(ops[..n])
    ensures AllAhead(ops, clock)
  {
    hide Next, CreateAhead, CreatedAt;
    forall k | 0 <= k < |ops| && ops[k].Create? ensures CreateAhead(ops, clock, k) {
      CreateAgrees(ops, clock, k);
      var upto, time := ops[..k + 1], clock[..k + 1];
      assert upto[..k] == ops[..k] && time[..k] == clock[..k];
      assert ClockedRun(upto, time).world == Run(upto);
    }
  }

  // ---- what a caller can tell ----

  /** A list asked for after the first `n` operations reads as specified. */
  ghost predicate ListsAlike(ops: seq<Op>, clock: seq<nat>, n: nat, ws: WorkspaceId)
    requires |clock| == |ops| && n <= |ops|
  {
    Answer(ClockedRun(ops[..n], clock[..n]).world, List(ws)) == Answer(Run(ops[..n]), List(ws))
  }

  lemma LastIsAhead(items: seq<Item>, x: Item, times: Times)
    requires InOrder(times, items) && forall i :: 0 <= i < |items| ==> items[i].record.id != x.record.id
    requires var placed := Placed(items, x, times);
             placed != [] && placed[|placed| - 1].record.id == x.record.id
    ensures Ahead(items, x.record.id, times)
  {
    PlacedInOrder(items, x, times);
    PlacedMembers(items, x, times);
    hide Placed, Earlier;
    var placed := Placed(items, x, times);
    forall i | 0 <= i < |items| ensures Earlier(times, items[i].record.id, x.record.id) {
      BeforeLast(placed, times, items[i]);
    }
  }

  /** A create whose listing reads as specified was ahead. */
  lemma {:induction false} ListedLastIsAhead(ops: seq<Op>, clock: seq<nat>)
    requires |clock| == |ops| && Legal(ops) && ops != [] && ops[|ops| - 1].Create?
    requires var n := |ops| - 1; ClockedRun(ops[..n], clock[..n]).world == Run(ops[..n])
    requires ListsAlike(ops, clock, |ops|, ops[|ops| - 1].ws)
    ensures CreateAhead(ops, clock, |ops| - 1)
  {
    var n := |ops| - 1;
    var op, c := ops[n], ClockedRun(ops[..n], clock[..n]);
    var w, times := At(c.world, op.ws), c.times[op.id := clock[n]];
    var x := NewItem(w, op.id, op.name);
    ListsInOrder(ops[..n], clock[..n], op.ws);
    FreshId(ops, clock, op.ws);
    assert forall i :: 0 <= i < |w.items| ==> w.items[i] in w.items;
    SameTimes(c.times, times, w.items);
    hide InOrder, Ahead, Placed, Earlier, NewItem;
    assert ops[..|ops|] == ops && clock[..|ops|] == clock;
    assert At(ClockedRun(ops, clock).world, op.ws).items == Placed(w.items, x, times);
    assert At(Run(ops), op.ws).items == w.items + [x];
    assert Records(Placed(w.items, x, times)) == Records(w.items + [x]);
    assert Records(w.items + [x])[|w.items|] == x.record;
    LastIsAhead(w.items, x, times);
  }

  lemma {:induction false} AlikeIsAhead(ops: seq<Op>, clock: seq<nat>)
    requires |clock| == |ops| && Legal(ops)
    requires forall n: nat, ws: WorkspaceId :: n <= |ops| ==> ListsAlike(ops, clock, n, ws)
    ensures AllAhead(ops, clock)
  {
    hide CreateAhead, ListsAlike, AllAhead, ClockedRun, Run, ClockedAnswers, Answers;
    if ops == [] {
      NothingAhead(clock);
    } else {
      var n := |ops| - 1;
      forall m: nat, ws: WorkspaceId | m <= n ensures ListsAlike(ops[..n], clock[..n], m, ws) {
        AlikeWithin(ops, clock, n, m, ws);
      }
      AlikeIsAhead(ops[..n], clock[..n]);
      AheadRunsAgree(ops[..n], clock[..n]);
      if ops[n].Create? { ListedLastIsAhead(ops, clock); }
      AheadNext(ops, clock);
    }
  }

  lemma NothingAhead(clock: seq<nat>)
    requires clock == []
    ensures AllAhead([], clock)
  {}

  lemma AheadNext(ops: seq<Op>, clock: seq<nat>)
    requires |clock| == |ops| && ops != [] && AllAhead(ops[..|ops| - 1], clock[..|ops| - 1])
    requires ops[|ops| - 1].Create? ==> CreateAhead(ops, clock, |ops| - 1)
    ensures AllAhead(ops, clock)
  {
    var n := |ops| - 1;
    forall k | 0 <= k < n && ops[k].Create? ensures CreateAhead(ops, clock, k) {
      AheadWithin(ops, clock, n, k);
      assert CreateAhead(ops[..n], clock[..n], k);
    }
  }

  lemma AlikeWithin(ops: seq<Op>, clock: seq<nat>, n: nat, m: nat, ws: WorkspaceId)
    requires |clock| == |ops| && m <= n <= |ops|
    ensures ListsAlike(ops[..n], clock[..n], m, ws) <==> ListsAlike(ops, clock, m, ws)
  {
    assert ops[..n][..m] == ops[..m] && clock[..n][..m] == clock[..m];
  }

  lemma AheadWithin(ops: seq<Op>, clock: seq<nat>, n: nat, k: nat)
    requires |clock| == |ops| && k < n <= |ops| && ops[k].Create?
    ensures CreateAhead(ops[..n], clock[..n], k) <==> CreateAhead(ops, clock, k)
  {
    assert ops[..n][..k] == ops[..k] && clock[..n][..k] == clock[..k];
  }

  /** Every create is ahead if and only if every list, whenever it is asked for, reads as
      specified: a caller who only sees replies can tell. */
  lemma {:induction false} AheadIffListsAlike(ops: seq<Op>, clock: seq<nat>)
    requires |clock| == |ops| && Legal(ops)
    ensures AllAhead(ops, clock) <==>
            forall n: nat, ws: WorkspaceId :: n <= |ops| ==> ListsAlike(ops, clock, n, ws)
  {
    if AllAhead(ops, clock) {
      forall n: nat, ws: WorkspaceId | n <= |ops| ensures ListsAlike(ops, clock, n, ws) {
        AheadPrefix(ops, clock, n);
        AheadRunsAgree(ops[..n], clock[..n]);
      }
    }
    if forall n: nat, ws: WorkspaceId :: n <= |ops| ==> ListsAlike(ops, clock, n, ws) {
      AlikeIsAhead(ops, clock);
    }
  }

  /** A clock that moves forward with every operation is always ahead. */
  lemma {:induction false} ForwardIsAhead(ops: seq<Op>, clock: seq<nat>)
    requires |clock| == |ops| && Legal(ops) && forall i, j :: 0 <= i < j < |clock| ==> clock[i] < clock[j]
    ensures AllAhead(ops, clock)
  {
    forall k | 0 <= k < |ops| && ops[k].Create? ensures CreateAhead(ops, clock, k) {
      var c := ClockedRun(ops[..k], clock[..k]);
      var items, times := At(c.world, ops[k].ws).items, c.times[ops[k].id := clock[k]];
      forall i | 0 <= i < |items| ensures Earlier(times, items[i].record.id, ops[k].id) {
        var j := ClockedOrigin(ops[..k], clock[..k], ops[k].ws, items[i]);
        TimesKept(ops[..k], clock[..k], j);
        assert ops[j] == ops[..k][j] && clock[j] < clock[k];
      }
    }
  }

  // ---- rollback under any clock ----

  /** Listed checkpoints with one id are one checkpoint, at any two moments. */
  lemma {:induction false} SameId(ops: seq<Op>, clock: seq<nat>, n: nat, ws: WorkspaceId, x: Item, y: Item)
    requires |clock| == |ops| && Legal(ops) && n <= |ops| && x.record.id == y.record.id
    requires x in ItemsAt(ops[..n], clock[..n], ws) && y in ItemsAt(ops, clock, ws)
    ensures x == y
  {
    var i := ClockedOrigin(ops[..n], clock[..n], ws, x);
    var j := ClockedOrigin(ops, clock, ws, y);
    assert ops[i] == ops[..n][i] && i == j;
    assert ops[..n][..i] == ops[..i] && clock[..n][..i] == clock[..i];
  }

  /** What makes a rollback exact, checked on the two lists: the checkpoint came last when
      it was made, all listed then are listed now, and all listed only now come after it. */
  ghost predicate Undoes(made: seq<Item>, now: seq<Item>, id: Id, times: Times) {
    && made != [] && made[|made| - 1].record.id == id
    && (forall x :: x in made ==> x in now)
    && (forall x :: x in now && x !in made ==> Earlier(times, id, x.record.id))
  }

  lemma UndoesHas(made: seq<Item>, now: seq<Item>, id: Id, times: Times)
    requires Undoes(made, now, id, times)
    ensures Has(now, id)
  {
    var last := made[|made| - 1];
    assert last in now;
    var i :| 0 <= i < |now| && now[i] == last;
  }

  lemma PositionInOrder(items: seq<Item>, times: Times, id: Id, x: Item)
    requires InOrder(times, items) && Has(items, id) && x in items
    ensures x in items[..Position(items, id) + 1] <==> x.record.id == id || Earlier(times, x.record.id, id)
    ensures x.record.id == id ==> x == items[Position(items, id)]
  {
    var p := Position(items, id);
    var i :| 0 <= i < |items| && items[i] == x;
    hide Position, Has;
    assert forall j :: 0 <= j < |items| && items[j] == x ==> j == i;
    assert i <= p ==> items[..p + 1][i] == x;
    assert forall j :: 0 <= j <= p ==> items[..p + 1][j] == items[j];
  }

  /** The list part of a rollback. */
  lemma {:induction false} UndoesIff(made: seq<Item>, now: seq<Item>, id: Id, times: Times)
    requires InOrder(times, made) && InOrder(times, now) && Has(made, id) && Has(now, id)
    requires forall x, y :: x in made && y in now && x.record.id == y.record.id ==> x == y
    ensures now[..Position(now, id) + 1] == made <==> Undoes(made, now, id, times)
  {
    var p := Position(now, id);
    var kept := now[..p + 1];
    InitInOrder(now, times, p + 1);
    if Undoes(made, now, id, times) {
      var c := made[|made| - 1];
      forall x ensures x in kept <==> x in made {
        if x in made { PositionInOrder(now, times, id, x); BeforeLast(made, times, x); }
        if x in kept { assert x in now; PositionInOrder(now, times, id, x); }
      }
      OrderUnique(kept, made, times);
    }
    if kept == made {
      assert made[|made| - 1] == now[p];
      forall x | x in now && x !in made ensures Earlier(times, id, x.record.id) {
        PositionInOrder(now, times, id, x);
      }
    }
  }

  lemma {:induction false} TimesStay(ops: seq<Op>, clock: seq<nat>, n: nat, ws: WorkspaceId)
    requires |clock| == |ops| && Legal(ops) && n <= |ops|
    ensures InOrder(ClockedRun(ops, clock).times, ItemsAt(ops[..n], clock[..n], ws))
  {
    var items := ItemsAt(ops[..n], clock[..n], ws);
    var times, times' := ClockedRun(ops[..n], clock[..n]).times, ClockedRun(ops, clock).times;
    ListsInOrder(ops[..n], clock[..n], ws);
    forall i | 0 <= i < |items| ensures TimeOf(times', items[i].record.id) == TimeOf(times, items[i].record.id) {
      var k := ClockedOrigin(ops[..n], clock[..n], ws, items[i]);
      TimesKept(ops[..n], clock[..n], k);
      TimesKept(ops, clock, k);
    }
    SameTimes(times, times', items);
  }

  lemma MadeByCreate(ops: seq<Op>, clock: seq<nat>, k: nat)
    requires |clock| == |ops| && k < |ops| && ops[k].Create?
    ensures var before := At(ClockedRun(ops[..k], clock[..k]).world, ops[k].ws);
            var made := At(ClockedRun(ops[..k + 1], clock[..k + 1]).world, ops[k].ws);
            var x := NewItem(before, ops[k].id, ops[k].name);
            made.disk == x.snapshot && made.head == Some(ops[k].id) && x in made.items
  {
    assert ops[..k + 1][..k] == ops[..k] && clock[..k + 1][..k] == clock[..k];
    var c := ClockedRun(ops[..k], clock[..k]);
    var before := At(c.world, ops[k].ws);
    PlacedMembers(before.items, NewItem(before, ops[k].id, ops[k].name), c.times[ops[k].id := clock[k]]);
  }

  lemma RestoreUndoes(made: Workspace, now: Workspace, c: Item, times: Times)
    requires InOrder(times, made.items) && InOrder(times, now.items) && c in made.items
    requires made.disk == c.snapshot && made.head == Some(c.record.id)
    requires forall x, y :: x in made.items && y in now.items && x.record.id == y.record.id ==> x == y
    ensures (Has(now.items, c.record.id) && Restored(now, c.record.id, Rollback) == made) <==>
            Undoes(made.items, now.items, c.record.id, times)
  {
    hide InOrder, Earlier;
    var id := c.record.id;
    assert Has(made.items, id) by { var i :| 0 <= i < |made.items| && made.items[i] == c; }
    if Undoes(made.items, now.items, id, times) { UndoesHas(made.items, now.items, id, times); }
    hide Undoes;
    if Has(now.items, id) {
      UndoesIff(made.items, now.items, id, times);
      var p := Position(now.items, id);
      assert now.items[p] in now.items && now.items[p] == c;
    }
  }

  /** Rolling back to a checkpoint gives exactly the disk, list and head right after its
      creation if and only if it came last in the list then, everything listed then is
      listed now, and everything listed only now comes after it. */
  lemma {:induction false} RollbackUnderAnyClock(ops: seq<Op>, clock: seq<nat>, k: nat)
    requires |clock| == |ops| && Legal(ops) && k < |ops| && ops[k].Create?
    ensures var made := At(ClockedRun(ops[..k + 1], clock[..k + 1]).world, ops[k].ws);
            var now := At(ClockedRun(ops, clock).world, ops[k].ws);
            (Has(now.items, ops[k].id) && Restored(now, ops[k].id, Rollback) == made) <==>
            Undoes(made.items, now.items, ops[k].id, ClockedRun(ops, clock).times)
  {
    var ws, id, times := ops[k].ws, ops[k].id, ClockedRun(ops, clock).times;
    var made, now := At(ClockedRun(ops[..k + 1], clock[..k + 1]).world, ws), At(ClockedRun(ops, clock).world, ws);
    MadeByCreate(ops, clock, k);
    var before := At(ClockedRun(ops[..k], clock[..k]).world, ws);
    var c := NewItem(before, id, ops[k].name);
    TimesStay(ops, clock, k + 1, ws);
    TimesStay(ops, clock, |ops|, ws);
    assert ops[..|ops|] == ops && clock[..|ops|] == clock;
    forall x, y | x in made.items && y in now.items && x.record.id == y.record.id ensures x == y {
      SameId(ops, clock, k + 1, ws, x, y);
    }
    RestoreUndoes(made, now, c, times);
    hide *;
  }

  lemma ClockedSnoc(ops: seq<Op>, op: Op, clock: seq<nat>, t: nat)
    requires |clock| == |ops|
    ensures ClockedRun(ops + [op], clock + [t]) == ClockedNext(ClockedRun(ops, clock), op, t)
  {
    assert (ops + [op])[..|ops|] == ops && (clock + [t])[..|ops|] == clock;
  }

  lemma PlacedBefore(first: Item, second: Item, times: Times)
    requires !Earlier(times, first.record.id, second.record.id)
    ensures Placed([first], second, times) == [second, first]
  {
    assert [first][..0] == [];
    assert Placed([], second, times) == [second];
  }

  /** Two creates in one tick, the second with the smaller id: the second is listed first,
      and rolling back to it, at once, drops the first. */
  lemma {:induction false} TieDropsOlder(ws: WorkspaceId, a: Id, b: Id, t: nat)
    requires a < b
    ensures var ops, clock := [Create(ws, b, None), Create(ws, a, None)], [t, t];
            var made := At(ClockedRun(ops, clock).world, ws);
            && Legal(ops) && Has(made.items, a) && Has(made.items, b)
            && !Has(Restored(made, a, Rollback).items, b) && Restored(made, a, Rollback) != made
  {
    var one, two := Create(ws, b, None), Create(ws, a, None);
    ClockedSnoc([], one, [], t);
    ClockedSnoc([one], two, [t], t);
    assert [] + [one] == [one] && [one] + [two] == [one, two];
    assert [] + [t] == [t] && [t] + [t] == [t, t];
    var first := NewItem(Blank, b, None);
    var c := ClockedRun([one], [t]);
    assert At(c.world, ws) == Workspace(map[], [first], Some(b));
    var second := NewItem(At(c.world, ws), a, None);
    PlacedBefore(first, second, c.times[a := t]);
    hide Placed, ClockedRun;
    var made := At(ClockedRun([one, two], [t, t]).world, ws);
    assert made.items == [second, first];
    assert made.items[0].record.id == a && made.items[1].record.id == b;
    assert Restored(made, a, Rollback).items == [second];
  }
}
