/** Lists of checkpoints with one taken out. */
module LineageLists {
  import opened Lineage

  lemma {:induction false} WithoutConcat(a: seq<Item>, b: seq<Item>, id: Id)
    ensures Without(a + b, id) == Without(a, id) + Without(b, id)
  {
    if b == [] {
      assert a + b == a;
    } else {
      assert (a + b)[..|a + b| - 1] == a + b[..|b| - 1];
      WithoutConcat(a, b[..|b| - 1], id);
    }
  }

  lemma {:induction false} WithoutAbsent(a: seq<Item>, id: Id)
    requires forall i :: 0 <= i < |a| ==> a[i].record.id != id
    ensures Without(a, id) == a
  {
    if a != [] {
      var init := a[..|a| - 1];
      WithoutAbsent(init, id);
      assert a == init + [a[|a| - 1]];
    }
  }

  lemma {:induction false} WithoutOne(a: seq<Item>, x: Item, b: seq<Item>)
    requires forall i :: 0 <= i < |a| ==> a[i].record.id != x.record.id
    requires forall i :: 0 <= i < |b| ==> b[i].record.id != x.record.id
    ensures Without(a + ([x] + b), x.record.id) == a + b
  {
    var id := x.record.id;
    hide Without;
    calc {
      Without(a + ([x] + b), id);
      { WithoutConcat(a, [x] + b, id); WithoutAbsent(a, id); }
      a + Without([x] + b, id);
      { WithoutHead(x, b); }
      a + b;
    }
  }

  lemma {:induction false} WithoutHead(x: Item, b: seq<Item>)
    requires forall i :: 0 <= i < |b| ==> b[i].record.id != x.record.id
    ensures Without([x] + b, x.record.id) == b
  {
    WithoutConcat([x], b, x.record.id);
    WithoutAbsent(b, x.record.id);
    assert Without([x], x.record.id) == Without([], x.record.id);
  }
}
