/** The directory layout under which the disk-backed store keeps checkpoints,
    and the workspace it stands for.

    checkpoints/<workspace>/head.json                       the head, if written
    checkpoints/<workspace>/<checkpoint>/workspace.raw      the snapshot
    checkpoints/<workspace>/<checkpoint>/record.json        the record
    workspaces/<workspace>/workspace.raw                    the live disk */
module LineageFiles {
  import opened Wrappers
  import opened Lineage

  datatype Stored = Stored(record: Record, createdAt: nat)

  datatype CheckpointDir = CheckpointDir(snapshot: Option<Disk>, stored: Option<Stored>)

  /** `head` is absent while no head file exists; the file itself may hold no id. */
  datatype LineageDir = LineageDir(head: Option<Option<Id>>, entries: map<Id, CheckpointDir>)

  datatype Files = Files(disks: map<WorkspaceId, Disk>, dirs: map<WorkspaceId, LineageDir>)

  const NoDir := LineageDir(None, map[])

  function DirOf(fs: Files, ws: WorkspaceId): LineageDir {
    if ws in fs.dirs then fs.dirs[ws] else NoDir
  }

  /** A directory holding a record also holds the snapshot, under the record's id. */
  ghost predicate Sound(d: LineageDir) {
    forall id :: id in d.entries && d.entries[id].stored.Some? ==>
      d.entries[id].snapshot.Some? && d.entries[id].stored.value.record.id == id
  }

  ghost predicate AllSound(fs: Files) {
    forall ws :: ws in fs.dirs ==> Sound(fs.dirs[ws])
  }

  // ---- the listing ----

  /** The sort key of a listing: creation time, then id. */
  predicate Before(a: Stored, b: Stored) {
    a.createdAt < b.createdAt || (a.createdAt == b.createdAt && a.record.id < b.record.id)
  }

  ghost predicate Sorted(s: seq<Stored>) {
    forall i, j :: 0 <= i < j < |s| ==> Before(s[i], s[j])
  }

  ghost function StoredIn(d: LineageDir): set<Stored> {
    set id | id in d.entries && d.entries[id].stored.Some? :: d.entries[id].stored.value
  }

  /** A record at its place in a sorted listing. */
  function Insert(s: seq<Stored>, r: Stored): (t: seq<Stored>)
    requires Sorted(s) && forall x :: x in s ==> x.record.id != r.record.id
    ensures Sorted(t) && forall x :: x in t <==> x == r || x in s
  {
    if s == [] then [r]
    else
      var init, last := s[..|s| - 1], s[|s| - 1];
      assert s == init + [last];
      if Before(last, r) then s + [r]
      else
        assert forall x :: x in Insert(init, r) ==> Before(x, last);
        Insert(init, r) + [last]
  }

  ghost predicate OwnIds(rs: set<Stored>) {
    forall a, b :: a in rs && b in rs && a.record.id == b.record.id ==> a == b
  }

  ghost function SortSet(rs: set<Stored>): (s: seq<Stored>)
    requires OwnIds(rs)
    ensures Sorted(s) && forall x :: x in s <==> x in rs
  {
    if rs == {} then []
    else
      var r :| r in rs;
      Insert(SortSet(rs - {r}), r)
  }

  ghost function ListingOf(d: LineageDir): (s: seq<Stored>)
    requires Sound(d)
    ensures Sorted(s) && forall x :: x in s <==> x in StoredIn(d)
  {
    SortSet(StoredIn(d))
  }

  /** A set has only one sorted listing. */
  lemma {:induction false} SortedUnique(s: seq<Stored>, t: seq<Stored>)
    requires Sorted(s) && Sorted(t) && forall x :: x in s <==> x in t
    ensures s == t
  {
    assert |t| > 0 ==> t[0] in s;
    assert |s| > 0 ==> s[0] in t;
    if s != [] {
      var s', t', a, b := s[..|s| - 1], t[..|t| - 1], s[|s| - 1], t[|t| - 1];
      assert a in t && b in s;
      assert a == b;
      forall x ensures x in s' <==> x in t' {
        if x in s' { assert x in s && x in t; }
        if x in t' { assert x in t && x in s; }
      }
      SortedUnique(s', t');
    }
  }

  // ---- the workspace a directory stands for ----

  ghost function ItemsOf(d: LineageDir): seq<Item>
    requires Sound(d)
  {
    Loaded(d, ListingOf(d))
  }

  function Loaded(d: LineageDir, s: seq<Stored>): (items: seq<Item>)
    ensures |items| == |s| && forall i :: 0 <= i < |s| ==> items[i] == LoadedOne(d, s[i])
  {
    seq(|s|, i requires 0 <= i < |s| => LoadedOne(d, s[i]))
  }

  function LoadedOne(d: LineageDir, r: Stored): Item {
    Item(r.record, SnapshotIn(d, r.record.id))
  }

  function SnapshotIn(d: LineageDir, id: Id): Disk {
    if id in d.entries && d.entries[id].snapshot.Some? then d.entries[id].snapshot.value else map[]
  }

  /** The head file's content, or the newest listed checkpoint while there is none. */
  ghost function HeadOf(d: LineageDir): Option<Id>
    requires Sound(d)
  {
    if d.head.Some? then d.head.value else NewestOf(d)
  }

  ghost function NewestOf(d: LineageDir): Option<Id>
    requires Sound(d)
  {
    var s := ListingOf(d);
    if s == [] then None else Some(s[|s| - 1].record.id)
  }

  ghost function View(fs: Files, ws: WorkspaceId): Workspace
    requires AllSound(fs)
  {
    Workspace(if ws in fs.disks then fs.disks[ws] else map[], ItemsOf(DirOf(fs, ws)), HeadOf(DirOf(fs, ws)))
  }

  // ---- how file operations move the view ----

  lemma SameListing(d: LineageDir, d': LineageDir)
    requires Sound(d) && Sound(d') && StoredIn(d) == StoredIn(d')
    requires forall r :: r in StoredIn(d) ==> SnapshotIn(d, r.record.id) == SnapshotIn(d', r.record.id)
    ensures ItemsOf(d) == ItemsOf(d') && NewestOf(d) == NewestOf(d')
  {
    SortedUnique(ListingOf(d), ListingOf(d'));
    assert forall i :: 0 <= i < |ListingOf(d)| ==> ListingOf(d)[i] in StoredIn(d);
  }

  lemma SameEntries(d: LineageDir, d': LineageDir)
    requires Sound(d) && d'.entries == d.entries
    ensures Sound(d') && ListingOf(d') == ListingOf(d) && ItemsOf(d') == ItemsOf(d)
  {
    assert StoredIn(d') == StoredIn(d);
    assert Loaded(d', ListingOf(d)) == Loaded(d, ListingOf(d));
  }

  lemma {:induction false} HeadWritten(d: LineageDir, head: Option<Id>)
    requires Sound(d)
    ensures var d' := d.(head := Some(head));
            Sound(d') && ItemsOf(d') == ItemsOf(d) && ListingOf(d') == ListingOf(d) && HeadOf(d') == head
  {
    var d' := d.(head := Some(head));
    assert StoredIn(d') == StoredIn(d);
    assert Loaded(d', ListingOf(d)) == Loaded(d, ListingOf(d));
  }

  /** A directory without a record, whatever it holds, is not listed. */
  lemma UnlistedDir(d: LineageDir, id: Id, c: CheckpointDir)
    requires Sound(d) && c.stored.None? && (id in d.entries ==> d.entries[id].stored.None?)
    ensures var d' := d.(entries := d.entries[id := c]);
            Sound(d') && ItemsOf(d') == ItemsOf(d) && HeadOf(d') == HeadOf(d) && StoredIn(d') == StoredIn(d)
            && ListingOf(d') == ListingOf(d)
  {
    var d' := d.(entries := d.entries[id := c]);
    forall r ensures r in StoredIn(d) <==> r in StoredIn(d') {
      if r in StoredIn(d) { assert r.record.id in d'.entries && d'.entries[r.record.id].stored == Some(r); }
      if r in StoredIn(d') { assert r.record.id in d.entries && d.entries[r.record.id].stored == Some(r); }
    }
    SameListing(d, d');
  }

  lemma {:induction false} InsertAtEnd(s: seq<Stored>, r: Stored)
    requires Sorted(s) && forall x :: x in s ==> x.record.id != r.record.id
    ensures (forall x :: x in s ==> Before(x, r)) <==> Insert(s, r) == s + [r]
  {
    if Insert(s, r) == s + [r] {
      forall x | x in s ensures Before(x, r) {
        var i :| 0 <= i < |s| && s[i] == x;
        assert (s + [r])[i] == x && (s + [r])[|s|] == r;
      }
    }
  }

  /** Writing a record beside a snapshot lists it, at its sorted place. */
  lemma {:induction false} NewRecord(d: LineageDir, r: Stored, disk: Disk)
    requires Sound(d) && (r.record.id in d.entries ==> d.entries[r.record.id].stored.None?)
    ensures var d' := d.(entries := d.entries[r.record.id := CheckpointDir(Some(disk), Some(r))]);
            && Sound(d') && (forall x :: x in ListingOf(d) ==> x.record.id != r.record.id)
            && ListingOf(d') == Insert(ListingOf(d), r)
            && (forall x :: x in StoredIn(d) ==> SnapshotIn(d', x.record.id) == SnapshotIn(d, x.record.id))
            && SnapshotIn(d', r.record.id) == disk
  {
    var d' := d.(entries := d.entries[r.record.id := CheckpointDir(Some(disk), Some(r))]);
    assert d'.entries[r.record.id].stored == Some(r);
    forall x ensures x in StoredIn(d') <==> x == r || x in StoredIn(d) {
      if x in StoredIn(d) { assert d'.entries[x.record.id].stored == Some(x); }
      if x in StoredIn(d') && x != r { assert d.entries[x.record.id].stored == Some(x); }
    }
    SortedUnique(ListingOf(d'), Insert(ListingOf(d), r));
  }

  /** The clock is ahead of every listed checkpoint of the workspace. */
  ghost predicate ClockAhead(d: LineageDir, r: Stored)
    requires Sound(d)
  {
    forall x :: x in ListingOf(d) ==> Before(x, r)
  }

  /** The new record comes last in the list exactly when the clock is ahead. */
  lemma {:induction false} NewRecordLast(d: LineageDir, r: Stored, disk: Disk)
    requires Sound(d) && (r.record.id in d.entries ==> d.entries[r.record.id].stored.None?)
    ensures var d' := d.(entries := d.entries[r.record.id := CheckpointDir(Some(disk), Some(r))]);
            Sound(d') && (ClockAhead(d, r) <==> ItemsOf(d') == ItemsOf(d) + [Item(r.record, disk)])
  {
    var d' := d.(entries := d.entries[r.record.id := CheckpointDir(Some(disk), Some(r))]);
    NewRecord(d, r, disk);
    InsertAtEnd(ListingOf(d), r);
    var s, s' := ListingOf(d), ListingOf(d');
    if s' == s + [r] {
      forall i | 0 <= i < |s'| ensures ItemsOf(d')[i] == (ItemsOf(d) + [Item(r.record, disk)])[i] {
        assert i < |s| ==> s[i] in StoredIn(d);
      }
    }
    if ItemsOf(d') == ItemsOf(d) + [Item(r.record, disk)] {
      assert |s'| == |s| + 1 && s'[|s|].record == r.record;
      forall x | x in s ensures Before(x, r) {
        assert s'[|s|] in StoredIn(d') && r in StoredIn(d');
        assert s'[|s|] == r;
        assert x in s' && x != r;
      }
    }
  }

  function Dropped(s: seq<Stored>, id: Id): (t: seq<Stored>)
    ensures forall x :: x in t <==> x in s && x.record.id != id
    ensures Sorted(s) ==> Sorted(t)
  {
    if s == [] then []
    else
      var init, last := s[..|s| - 1], s[|s| - 1];
      assert s == init + [last];
      if last.record.id == id then Dropped(init, id) else Dropped(init, id) + [last]
  }

  lemma {:induction false} DroppedIsWithout(d: LineageDir, s: seq<Stored>, id: Id)
    ensures Loaded(d, Dropped(s, id)) == Without(Loaded(d, s), id)
  {
    hide Loaded, Without, Dropped, LoadedOne;
    if s == [] {
      NothingDropped(d, id);
    } else {
      var init, last := s[..|s| - 1], s[|s| - 1];
      DroppedIsWithout(d, init, id);
      assert s == init + [last];
      DroppedNext(init, last, id);
      LoadedNext(d, init, last);
      WithoutNext(Loaded(d, init), LoadedOne(d, last), id);
      LoadedNext(d, Dropped(init, id), last);
    }
  }

  lemma NothingDropped(d: LineageDir, id: Id)
    ensures Loaded(d, Dropped([], id)) == Without(Loaded(d, []), id)
  {
    assert Loaded(d, []) == [];
  }

  lemma DroppedNext(s: seq<Stored>, r: Stored, id: Id)
    ensures Dropped(s + [r], id) == if r.record.id == id then Dropped(s, id) else Dropped(s, id) + [r]
  {
    assert (s + [r])[..|s|] == s;
  }

  lemma LoadedNext(d: LineageDir, s: seq<Stored>, r: Stored)
    ensures Loaded(d, s + [r]) == Loaded(d, s) + [LoadedOne(d, r)] && LoadedOne(d, r).record == r.record
  {}

  lemma WithoutNext(items: seq<Item>, x: Item, id: Id)
    ensures Without(items + [x], id) == if x.record.id == id then Without(items, id) else Without(items, id) + [x]
  {
    assert (items + [x])[..|items|] == items;
  }

  /** Removing a checkpoint's directory removes it from the list and nothing else. */
  lemma {:induction false} RemovedDir(d: LineageDir, id: Id)
    requires Sound(d)
    ensures var d' := d.(entries := d.entries - {id});
            Sound(d') && ItemsOf(d') == Without(ItemsOf(d), id) && ListingOf(d') == Dropped(ListingOf(d), id)
  {
    hide Dropped, Without, SortSet, Loaded;
    var d' := d.(entries := d.entries - {id});
    var s, t := ListingOf(d), Dropped(ListingOf(d), id);
    forall x ensures x in StoredIn(d') <==> x in t {
      if x in t { assert d'.entries[x.record.id].stored == Some(x); }
      if x in StoredIn(d') { assert d.entries[x.record.id].stored == Some(x); }
    }
    SortedUnique(ListingOf(d'), t);
    DroppedIsWithout(d, s, id);
    assert Loaded(d', t) == Loaded(d, t);
  }

  lemma NewestStays(d: LineageDir, id: Id)
    requires Sound(d) && NewestOf(d) != Some(id)
    ensures var d' := d.(entries := d.entries - {id}); Sound(d') && NewestOf(d') == NewestOf(d)
  {
    hide SortSet, Dropped, ItemsOf;
    RemovedDir(d, id);
    var s := ListingOf(d);
    if s == [] {
      assert Dropped(s, id) == [] by { NoneDropped(id); }
    } else {
      DroppedNext(s[..|s| - 1], s[|s| - 1], id);
      assert s == s[..|s| - 1] + [s[|s| - 1]];
    }
  }

  lemma NoneDropped(id: Id)
    ensures Dropped([], id) == []
  {}

  /** Listed ids are pairwise distinct, and a listed record is the stored one. */
  lemma ListingIsStored(d: LineageDir, id: Id)
    requires Sound(d)
    ensures Has(ItemsOf(d), id) <==> id in d.entries && d.entries[id].stored.Some?
    ensures Has(ItemsOf(d), id) ==>
              ItemsOf(d)[Position(ItemsOf(d), id)] == LoadedOne(d, d.entries[id].stored.value)
  {
    var s := ListingOf(d);
    forall i | 0 <= i < |s| ensures s[i].record.id in d.entries && d.entries[s[i].record.id].stored == Some(s[i]) {
      assert s[i] in StoredIn(d);
    }
    if id in d.entries && d.entries[id].stored.Some? {
      var r := d.entries[id].stored.value;
      assert r in StoredIn(d);
      var i :| 0 <= i < |s| && s[i] == r;
      assert ItemsOf(d)[i].record.id == id;
    }
  }

  lemma {:induction false} ListingDistinct(d: LineageDir)
    requires Sound(d)
    ensures forall i, j :: 0 <= i < j < |ItemsOf(d)| ==> ItemsOf(d)[i].record.id != ItemsOf(d)[j].record.id
  {
    var s := ListingOf(d);
    forall i | 0 <= i < |s| ensures s[i].record.id in d.entries && d.entries[s[i].record.id].stored == Some(s[i]) {
      assert s[i] in StoredIn(d);
    }
  }
}
