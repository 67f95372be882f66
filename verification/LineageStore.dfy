/** The disk-backed checkpoint store.  Every method is proved to move the
    workspace its files stand for exactly as the transitions of Lineage.dfy do,
    and to leave every other workspace alone.

    `trace` records the files after each filesystem call; what holds of every
    state in it holds after a crash at that point. */
module LineageStore {
  import opened Wrappers
  import opened Lineage
  import opened LineageLists
  import opened LineageClock
  import opened LineageFiles

  datatype StoreError = UnknownCheckpoint

  /** `fs` shows the workspaces of `fs0`, except possibly `ws`. */
  ghost predicate OthersKept(fs0: Files, fs: Files, ws: WorkspaceId) {
    && AllSound(fs0) && AllSound(fs)
    && forall w :: w != ws ==> View(fs, w) == View(fs0, w)
  }

  ghost predicate SameViews(fs0: Files, fs: Files) {
    && AllSound(fs0) && AllSound(fs)
    && forall w :: View(fs, w) == View(fs0, w)
  }

  /** No checkpoint directory appears or changes. */
  ghost predicate Shrinks(fs0: Files, fs: Files) {
    forall ws, id :: id in DirOf(fs, ws).entries ==>
      id in DirOf(fs0, ws).entries && DirOf(fs, ws).entries[id] == DirOf(fs0, ws).entries[id]
  }

  /** A crash while checkpoint `r` is being created leaves the old workspace, or
      the old one with `r` completely listed and the old head, or the new one;
      files of earlier checkpoints are untouched. */
  ghost predicate CrashSafe(fs0: Files, fs: Files, ws: WorkspaceId, r: Stored) {
    && OthersKept(fs0, fs, ws)
    && fs.disks == fs0.disks
    && (forall id :: id in DirOf(fs0, ws).entries && id != r.record.id ==>
          id in DirOf(fs, ws).entries && DirOf(fs, ws).entries[id] == DirOf(fs0, ws).entries[id])
    && (View(fs, ws) == View(fs0, ws) || ListedIn(fs0, fs, ws, r))
    && (View(fs, ws).head == View(fs0, ws).head
        || (View(fs, ws).head == Some(r.record.id) && ListedIn(fs0, fs, ws, r)))
  }

  ghost predicate ListedIn(fs0: Files, fs: Files, ws: WorkspaceId, r: Stored)
    requires AllSound(fs0) && AllSound(fs)
  {
    && (forall x :: x in ListingOf(DirOf(fs0, ws)) ==> x.record.id != r.record.id)
    && ListingOf(DirOf(fs, ws)) == Insert(ListingOf(DirOf(fs0, ws)), r)
    && SnapshotIn(DirOf(fs, ws), r.record.id) == View(fs0, ws).disk
  }

  lemma CrashUnseen(fs0: Files, fs: Files, ws: WorkspaceId, r: Stored)
    requires SameViews(fs0, fs) && fs.disks == fs0.disks
    requires forall id :: id in DirOf(fs0, ws).entries && id != r.record.id ==>
               id in DirOf(fs, ws).entries && DirOf(fs, ws).entries[id] == DirOf(fs0, ws).entries[id]
    ensures CrashSafe(fs0, fs, ws, r)
  {}

  lemma CrashListed(fs0: Files, fs: Files, ws: WorkspaceId, r: Stored)
    requires OthersKept(fs0, fs, ws) && fs.disks == fs0.disks && ListedIn(fs0, fs, ws, r)
    requires forall id :: id in DirOf(fs0, ws).entries && id != r.record.id ==>
               id in DirOf(fs, ws).entries && DirOf(fs, ws).entries[id] == DirOf(fs0, ws).entries[id]
    requires View(fs, ws).head == View(fs0, ws).head || View(fs, ws).head == Some(r.record.id)
    ensures CrashSafe(fs0, fs, ws, r)
  {}

  ghost function WithEntry(fs: Files, ws: WorkspaceId, id: Id, c: CheckpointDir): Files
    requires ws in fs.dirs
  {
    fs.(dirs := fs.dirs[ws := fs.dirs[ws].(entries := fs.dirs[ws].entries[id := c])])
  }

  lemma EntryOverwrites(fs: Files, ws: WorkspaceId, id: Id, c: CheckpointDir, c': CheckpointDir)
    requires ws in fs.dirs
    ensures var fs' := WithEntry(fs, ws, id, c);
            ws in fs'.dirs && fs'.disks == fs.disks && WithEntry(fs', ws, id, c') == WithEntry(fs, ws, id, c')
    ensures var fs' := WithEntry(fs, ws, id, c');
            && ws in fs'.dirs && fs'.disks == fs.disks
            && fs'.dirs[ws].entries == fs.dirs[ws].entries[id := c']
            && forall w :: w != ws ==> DirOf(fs', w) == DirOf(fs, w)
  {
    var e: map<Id, CheckpointDir> := fs.dirs[ws].entries;
    var e': map<Id, CheckpointDir> := e[id := c];
    assert e'[id := c'] == e[id := c'];
    assert WithEntry(WithEntry(fs, ws, id, c), ws, id, c').dirs == WithEntry(fs, ws, id, c').dirs;
  }

  lemma UnseenState(fs0: Files, fs1: Files, ws: WorkspaceId, r: Stored, c: CheckpointDir)
    requires SameViews(fs0, fs1) && fs1.disks == fs0.disks && c.stored.None?
    requires ws in fs1.dirs && fs1.dirs[ws].entries == DirOf(fs0, ws).entries && r.record.id !in fs1.dirs[ws].entries
    ensures var fs := WithEntry(fs1, ws, r.record.id, c); AllSound(fs) && CrashSafe(fs0, fs, ws, r)
  {
    hide CrashSafe, SortSet, Loaded;
    var fs := WithEntry(fs1, ws, r.record.id, c);
    UnlistedDir(fs1.dirs[ws], r.record.id, c);
    CrashUnseen(fs0, fs, ws, r);
  }

  lemma ListedState(fs0: Files, fs1: Files, ws: WorkspaceId, r: Stored)
    requires SameViews(fs0, fs1) && fs1.disks == fs0.disks && ws in fs1.disks
    requires ws in fs1.dirs && fs1.dirs[ws].head.Some? && fs1.dirs[ws].entries == DirOf(fs0, ws).entries
               && r.record.id !in fs1.dirs[ws].entries
    ensures var fs := WithEntry(fs1, ws, r.record.id, CheckpointDir(Some(fs1.disks[ws]), Some(r)));
            && AllSound(fs) && CrashSafe(fs0, fs, ws, r) && OthersKept(fs0, fs, ws)
            && ListedIn(fs0, fs, ws, r) && View(fs, ws).head == View(fs0, ws).head
  {
    hide CrashSafe, SortSet, Loaded, Insert;
    var d := fs1.dirs[ws];
    var fs := WithEntry(fs1, ws, r.record.id, CheckpointDir(Some(fs1.disks[ws]), Some(r)));
    SameEntries(DirOf(fs0, ws), d);
    NewRecord(d, r, fs1.disks[ws]);
    CrashListed(fs0, fs, ws, r);
  }

  ghost predicate Shows(fs: Files, w: World) {
    AllSound(fs) && forall ws :: View(fs, ws) == At(w, ws)
  }

  /** Every stored checkpoint bears the time its create was given. */
  ghost predicate Timed(fs: Files, times: Times) {
    forall ws: WorkspaceId, id: Id :: EntryTimed(DirOf(fs, ws), times, id)
  }

  ghost predicate EntryTimed(d: LineageDir, times: Times, id: Id) {
    id in d.entries && d.entries[id].stored.Some? ==> d.entries[id].stored.value.createdAt == TimeOf(times, id)
  }

  /** No checkpoint directory bears this id. */
  ghost predicate Unused(fs: Files, id: Id) {
    forall ws :: id !in DirOf(fs, ws).entries
  }

  /** Only the checkpoint being created has a directory that was not there. */
  ghost predicate Grows(fs0: Files, fs: Files, op: Op) {
    forall ws, id :: id in DirOf(fs, ws).entries ==> id in DirOf(fs0, ws).entries || (op.Create? && op.id == id)
  }

  lemma ShrinksKeeps(fs0: Files, fs: Files, op: Op, times: Times)
    requires Shrinks(fs0, fs)
    ensures Grows(fs0, fs, op) && (Timed(fs0, times) ==> Timed(fs, times))
    ensures forall id :: Unused(fs0, id) ==> Unused(fs, id)
  {
    if Timed(fs0, times) {
      forall ws: WorkspaceId, id: Id ensures EntryTimed(DirOf(fs, ws), times, id) {
        assert EntryTimed(DirOf(fs0, ws), times, id);
      }
    }
  }

  lemma {:induction false} LoadedPlaced(d: LineageDir, d': LineageDir, s: seq<Stored>, r: Stored, times: Times)
    requires Sorted(s) && TimeOf(times, r.record.id) == r.createdAt
    requires forall x :: x in s ==> x.record.id != r.record.id
    requires forall x :: x in s ==> SnapshotIn(d', x.record.id) == SnapshotIn(d, x.record.id)
    requires forall x :: x in s ==> TimeOf(times, x.record.id) == x.createdAt
    ensures Loaded(d', Insert(s, r)) == Placed(Loaded(d, s), LoadedOne(d', r), times)
  {
    hide Loaded, Placed, LoadedOne, SnapshotIn;
    if s == [] {
      FirstPlaced(d, d', r, times);
    } else {
      var init, last := s[..|s| - 1], s[|s| - 1];
      assert s == init + [last] && last in s;
      LoadedPlaced(d, d', init, r, times);
      LoadedSame(d, d', s);
      LoadedNext(d, init, last);
      LoadedNext(d', s, r);
      LoadedNext(d', Insert(init, r), last);
      PlacedNext(Loaded(d, init), LoadedOne(d, last), LoadedOne(d', r), times);
      LoadedSame(d, d', [last]);
      LoadedAlone(d, last);
      LoadedAlone(d', last);
      assert Insert(s, r) == if Before(last, r) then s + [r] else Insert(init, r) + [last];
    }
  }

  lemma FirstPlaced(d: LineageDir, d': LineageDir, r: Stored, times: Times)
    ensures Loaded(d', Insert([], r)) == Placed(Loaded(d, []), LoadedOne(d', r), times)
  {
    assert Loaded(d', [r]) == [LoadedOne(d', r)] && Loaded(d, []) == [];
  }

  lemma LoadedAlone(d: LineageDir, r: Stored)
    ensures Loaded(d, [r]) == [LoadedOne(d, r)]
  {}

  lemma LoadedSame(d: LineageDir, d': LineageDir, s: seq<Stored>)
    requires forall x :: x in s ==> SnapshotIn(d', x.record.id) == SnapshotIn(d, x.record.id)
    ensures Loaded(d', s) == Loaded(d, s)
  {
    assert forall i :: 0 <= i < |s| ==> s[i] in s;
  }

  lemma CreatedTimed(fs0: Files, fs: Files, ws: WorkspaceId, id: Id, r: Stored, times: Times)
    requires Timed(fs0, times) && Unused(fs0, id) && ws in fs.disks
    requires DirOf(fs, ws).entries == DirOf(fs0, ws).entries[id := CheckpointDir(Some(fs.disks[ws]), Some(r))]
    requires forall w :: w != ws ==> DirOf(fs, w) == DirOf(fs0, w)
    ensures Timed(fs, times[id := r.createdAt])
  {
    var times' := times[id := r.createdAt];
    forall w: WorkspaceId, x: Id ensures EntryTimed(DirOf(fs, w), times', x) {
      assert EntryTimed(DirOf(fs0, w), times, x);
    }
  }

  /** A create, under any clock, puts the new checkpoint at its place in the list. */
  lemma {:induction false} CreatedShows(fs0: Files, fs: Files, ws: WorkspaceId, id: Id, now: nat,
                                        name: Option<string>, times: Times)
    requires AllSound(fs0) && AllSound(fs) && Timed(fs0, times) && Unused(fs0, id) && ws in fs.disks
               && fs.disks == fs0.disks
    requires var r := Stored(NewItem(View(fs0, ws), id, name).record, now);
             && ListedIn(fs0, fs, ws, r) && View(fs, ws).head == Some(id)
             && DirOf(fs, ws).entries == DirOf(fs0, ws).entries[id := CheckpointDir(Some(fs.disks[ws]), Some(r))]
    ensures View(fs, ws) == CreatedAt(View(fs0, ws), id, name, times[id := now])
  {
    hide Insert, SortSet, Placed, Loaded, HeadOf;
    var d, d' := DirOf(fs0, ws), DirOf(fs, ws);
    var r := Stored(NewItem(View(fs0, ws), id, name).record, now);
    forall x | x in ListingOf(d)
      ensures SnapshotIn(d', x.record.id) == SnapshotIn(d, x.record.id)
                && TimeOf(times[id := now], x.record.id) == x.createdAt
    {
      assert x in StoredIn(d);
      assert x.record.id in d.entries && d.entries[x.record.id].stored == Some(x);
      assert EntryTimed(d, times, x.record.id);
    }
    LoadedPlaced(d, d', ListingOf(d), r, times[id := now]);
  }

  lemma SameEntriesShrinks(fs0: Files, fs: Files, ws: WorkspaceId)
    requires DirOf(fs, ws).entries == DirOf(fs0, ws).entries
    requires forall w :: w != ws ==> DirOf(fs, w) == DirOf(fs0, w)
    ensures Shrinks(fs0, fs)
  {}

  lemma KeptNothing(fs: Files, ws: WorkspaceId)
    requires AllSound(fs)
    ensures OthersKept(fs, fs, ws) && Shrinks(fs, fs)
  {}

  lemma NarrowsTransitive(fs0: Files, fs1: Files, fs2: Files, ws: WorkspaceId)
    requires OthersKept(fs0, fs1, ws) && Shrinks(fs0, fs1) && OthersKept(fs1, fs2, ws) && Shrinks(fs1, fs2)
    ensures OthersKept(fs0, fs2, ws) && Shrinks(fs0, fs2)
  {
    hide View;
  }

  lemma ViewItems(fs: Files, ws: WorkspaceId)
    requires AllSound(fs)
    ensures View(fs, ws).items == ItemsOf(DirOf(fs, ws))
    ensures View(fs, ws).disk == if ws in fs.disks then fs.disks[ws] else map[]
  {}

  lemma ViewDisk(fs: Files, ws: WorkspaceId)
    requires AllSound(fs) && ws in fs.disks
    ensures View(fs, ws).disk == fs.disks[ws]
  {}

  lemma ListedRecords(fs: Files, ws: WorkspaceId)
    requires AllSound(fs)
    ensures |Records(View(fs, ws).items)| == |ListingOf(DirOf(fs, ws))|
    ensures forall i :: 0 <= i < |ListingOf(DirOf(fs, ws))| ==>
              Records(View(fs, ws).items)[i] == ListingOf(DirOf(fs, ws))[i].record
  {}

  function WithoutAll(items: seq<Item>, ids: seq<Id>): seq<Item> {
    if ids == [] then items else Without(WithoutAll(items, ids[..|ids| - 1]), ids[|ids| - 1])
  }

  /** Deleting the ids listed from `t` on leaves the list up to `t`. */
  lemma {:induction false} NewerDropped(items: seq<Item>, t: nat, ids: seq<Id>)
    requires forall i, j :: 0 <= i < j < |items| ==> items[i].record.id != items[j].record.id
    requires t + |ids| <= |items| && forall i :: 0 <= i < |ids| ==> ids[i] == items[t + i].record.id
    ensures WithoutAll(items, ids) == items[..t] + items[t + |ids|..]
  {
    hide Without;
    if ids == [] {
      assert items == items[..t] + items[t..];
    } else {
      var n := t + |ids| - 1;
      NewerDropped(items, t, ids[..|ids| - 1]);
      assert items[n..] == [items[n]] + items[n + 1..];
      WithoutOne(items[..t], items[n], items[n + 1..]);
    }
  }

  method SortByKey(records: seq<Stored>) returns (sorted: seq<Stored>)
    requires forall i, j :: 0 <= i < j < |records| ==> records[i].record.id != records[j].record.id
    ensures Sorted(sorted) && forall x :: x in sorted <==> x in records
  {
    sorted := [];
    for i := 0 to |records|
      invariant Sorted(sorted) && forall x :: x in sorted <==> x in records[..i]
    {
      sorted := Insert(sorted, records[i]);
    }
  }

  class WorkspaceStore {
    var disks: map<WorkspaceId, Disk>
    var dirs: map<WorkspaceId, LineageDir>
    ghost var trace: seq<Files>

    ghost function State(): Files
      reads this
    {
      Files(disks, dirs)
    }

    ghost predicate Valid()
      reads this
    {
      AllSound(State())
    }

    constructor ()
      ensures Valid() && trace == [] && dirs == map[] && forall ws :: View(State(), ws) == Blank
    {
      disks, dirs, trace := map[], map[], [];
      new;
      assert StoredIn(NoDir) == {};
    }

    /** Reads the directory in whatever order the filesystem gives its entries. */
    method ListCheckpoints(ws: WorkspaceId) returns (listed: seq<Stored>)
      requires Valid()
      ensures listed == ListingOf(DirOf(State(), ws))
    {
      var d := if ws in dirs then dirs[ws] else NoDir;
      var pending, records := d.entries.Keys, [];
      while pending != {}
        invariant pending <= d.entries.Keys
        invariant forall r :: r in records <==> r in StoredIn(d) && r.record.id !in pending
        invariant forall i, j :: 0 <= i < j < |records| ==> records[i].record.id != records[j].record.id
      {
        var id :| id in pending;
        pending := pending - {id};
        if d.entries[id].stored.Some? {
          records := records + [d.entries[id].stored.value];
        }
      }
      listed := SortByKey(records);
      SortedUnique(listed, ListingOf(d));
    }

    method HeadCheckpointId(ws: WorkspaceId) returns (head: Option<Id>)
      requires Valid()
      ensures head == View(State(), ws).head
    {
      if ws in dirs && dirs[ws].head.Some? {
        return dirs[ws].head.value;
      }
      var listed := ListCheckpoints(ws);
      head := if listed == [] then None else Some(listed[|listed| - 1].record.id);
    }

    /** One filesystem call below the workspace's checkpoint directory. */
    method PutDir(ws: WorkspaceId, d: LineageDir)
      requires Valid() && Sound(d)
      modifies this
      ensures Valid() && disks == old(disks) && dirs == old(dirs)[ws := d] && trace == old(trace) + [State()]
      ensures OthersKept(old(State()), State(), ws)
      ensures View(State(), ws) == Workspace(old(View(State(), ws)).disk, ItemsOf(d), HeadOf(d))
    {
      dirs := dirs[ws := d];
      trace := trace + [State()];
    }

    /** One filesystem call on the workspace's live disk. */
    method PutDisk(ws: WorkspaceId, disk: Disk)
      requires Valid()
      modifies this
      ensures Valid() && disks == old(disks)[ws := disk] && dirs == old(dirs) && trace == old(trace) + [State()]
      ensures OthersKept(old(State()), State(), ws)
      ensures View(State(), ws) == old(View(State(), ws)).(disk := disk)
    {
      disks := disks[ws := disk];
      trace := trace + [State()];
    }

    /** Makes the directory and writes a missing head file.  Neither changes what
        any reader of the store sees. */
    method EnsureWorkspace(ws: WorkspaceId)
      requires Valid()
      modifies this
      ensures Valid() && SameViews(old(State()), State())
      ensures disks == old(disks) && ws in dirs && dirs[ws].head.Some?
      ensures dirs[ws].entries == DirOf(old(State()), ws).entries
      ensures forall w :: w != ws ==> DirOf(State(), w) == DirOf(old(State()), w)
      ensures old(trace) <= trace
      ensures forall i :: |old(trace)| <= i < |trace| ==>
                SameViews(old(State()), trace[i]) && trace[i].disks == disks
                && DirOf(trace[i], ws).entries == DirOf(old(State()), ws).entries
    {
      PutDir(ws, if ws in dirs then dirs[ws] else NoDir);
      if dirs[ws].head.None? {
        var head := HeadCheckpointId(ws);
        HeadWritten(dirs[ws], head);
        PutDir(ws, dirs[ws].(head := Some(head)));
      }
    }

    method SetHeadCheckpointId(ws: WorkspaceId, head: Option<Id>)
      requires Valid()
      modifies this
      ensures Valid() && OthersKept(old(State()), State(), ws) && disks == old(disks)
      ensures ws in dirs && dirs[ws].entries == DirOf(old(State()), ws).entries
      ensures View(State(), ws) == old(View(State(), ws)).(head := head)
      ensures ListingOf(DirOf(State(), ws)) == old(ListingOf(DirOf(State(), ws)))
      ensures forall w :: w != ws ==> DirOf(State(), w) == DirOf(old(State()), w)
      ensures old(trace) <= trace
      ensures forall i :: |old(trace)| <= i < |trace| ==>
                trace[i] == State() || (SameViews(old(State()), trace[i]) && trace[i].disks == disks
                                        && DirOf(trace[i], ws).entries == DirOf(old(State()), ws).entries)
    {
      EnsureWorkspace(ws);
      HeadWritten(dirs[ws], head);
      PutDir(ws, dirs[ws].(head := Some(head)));
      SameEntries(DirOf(old(State()), ws), dirs[ws]);
    }

    method PrepareWorkspace(ws: WorkspaceId)
      requires Valid()
      modifies this
      ensures Valid() && SameViews(old(State()), State())
      ensures ws in disks && ws in dirs && dirs[ws].entries == DirOf(old(State()), ws).entries
      ensures forall w :: w != ws ==> DirOf(State(), w) == DirOf(old(State()), w)
    {
      EnsureWorkspace(ws);
      if ws !in disks {
        PutDisk(ws, map[]);
      }
    }

    /** One filesystem call inside a checkpoint's own directory. */
    method PutEntry(ws: WorkspaceId, id: Id, c: CheckpointDir)
      requires Valid() && ws in dirs && AllSound(WithEntry(State(), ws, id, c))
      modifies this
      ensures State() == old(WithEntry(State(), ws, id, c)) && trace == old(trace) + [State()]
    {
      assert ws in WithEntry(State(), ws, id, c).dirs;
      PutDir(ws, dirs[ws].(entries := dirs[ws].entries[id := c]));
    }

    /** Snapshot first, record last: a directory is listed only once complete. */
    method SaveCheckpoint(ws: WorkspaceId, r: Stored)
      requires Valid() && ws in disks && r.record.id !in DirOf(State(), ws).entries
      modifies this
      ensures Valid() && OthersKept(old(State()), State(), ws) && ListedIn(old(State()), State(), ws, r)
      ensures View(State(), ws).head == old(View(State(), ws)).head && disks == old(disks)
      ensures ws in dirs
      ensures dirs[ws].entries ==
              DirOf(old(State()), ws).entries[r.record.id := CheckpointDir(Some(disks[ws]), Some(r))]
      ensures forall w :: w != ws ==> DirOf(State(), w) == DirOf(old(State()), w)
      ensures old(trace) <= trace
      ensures forall i :: |old(trace)| <= i < |trace| ==> CrashSafe(old(State()), trace[i], ws, r)
    {
      hide CrashSafe, ListedIn, View, OthersKept, SameViews, WithEntry;
      var id := r.record.id;
      ghost var fs0 := State();
      EnsureWorkspace(ws);
      ghost var fs1 := State();
      forall i | |old(trace)| <= i < |trace| ensures CrashSafe(fs0, trace[i], ws, r) {
        CrashUnseen(fs0, trace[i], ws, r);
      }
      var empty, copied, written :=
        CheckpointDir(None, None), CheckpointDir(Some(disks[ws]), None), CheckpointDir(Some(disks[ws]), Some(r));
      UnseenState(fs0, fs1, ws, r, empty);
      PutEntry(ws, id, empty);
      UnseenState(fs0, fs1, ws, r, copied);
      EntryOverwrites(fs1, ws, id, empty, copied);
      PutEntry(ws, id, copied);
      ListedState(fs0, fs1, ws, r);
      EntryOverwrites(fs1, ws, id, copied, written);
      PutEntry(ws, id, written);
    }

    /** The new checkpoint is listed at its sorted place with the live disk as its
        snapshot and the old head as its source.  It comes last, so that the whole
        workspace is the one the specification creates, exactly when the clock is
        ahead of every listed checkpoint. */
    method CreateCheckpoint(ws: WorkspaceId, id: Id, now: nat, name: Option<string>) returns (r: Stored)
      requires Valid() && ws in disks && id !in DirOf(State(), ws).entries
      modifies this
      ensures Valid() && OthersKept(old(State()), State(), ws) && disks == old(disks)
      ensures r == Stored(NewItem(old(View(State(), ws)), id, name).record, now)
      ensures ListedIn(old(State()), State(), ws, r) && View(State(), ws).head == Some(id)
      ensures ClockAhead(DirOf(old(State()), ws), r) <==>
              View(State(), ws) == Created(old(View(State(), ws)), id, name)
      ensures ws in dirs
      ensures dirs[ws].entries == DirOf(old(State()), ws).entries[id := CheckpointDir(Some(disks[ws]), Some(r))]
      ensures forall w :: w != ws ==> DirOf(State(), w) == DirOf(old(State()), w)
      ensures old(trace) <= trace
      ensures forall i :: |old(trace)| <= i < |trace| ==> CrashSafe(old(State()), trace[i], ws, r)
    {
      hide SortSet, Insert, Loaded, CrashSafe;
      ghost var fs0 := State();
      var head := HeadCheckpointId(ws);
      r := Stored(Record(id, head, name), now);
      SaveCheckpoint(ws, r);
      ghost var fs1, seen := State(), trace;
      SetHeadCheckpointId(ws, Some(id));
      forall i | |seen| <= i < |trace| ensures CrashSafe(fs0, trace[i], ws, r) {
        SameEntries(DirOf(fs1, ws), DirOf(trace[i], ws));
        CrashListed(fs0, trace[i], ws, r);
      }
      ghost var d0 := DirOf(fs0, ws);
      NewRecordLast(d0, r, disks[ws]);
      SameEntries(d0.(entries := dirs[ws].entries), dirs[ws]);
    }

    method RemoveCheckpointDir(ws: WorkspaceId, id: Id)
      requires Valid()
      modifies this
      ensures Valid() && OthersKept(old(State()), State(), ws) && disks == old(disks)
      ensures DirOf(State(), ws) == DirOf(old(State()), ws).(entries := DirOf(old(State()), ws).entries - {id})
      ensures forall w :: w != ws ==> DirOf(State(), w) == DirOf(old(State()), w)
    {
      if ws in dirs && id in dirs[ws].entries {
        RemovedDir(dirs[ws], id);
        PutDir(ws, dirs[ws].(entries := dirs[ws].entries - {id}));
      } else {
        assert DirOf(State(), ws).entries - {id} == DirOf(State(), ws).entries;
      }
    }

    method DeleteCheckpoint(ws: WorkspaceId, id: Id)
      requires Valid()
      modifies this
      ensures Valid() && OthersKept(old(State()), State(), ws) && Shrinks(old(State()), State())
      ensures View(State(), ws) == Deleted(old(View(State(), ws)), id)
    {
      hide SortSet, Loaded, ItemsOf;
      var head := HeadCheckpointId(ws);
      ghost var d := DirOf(State(), ws);
      ListingIsStored(d, id);
      RemovedDir(d, id);
      var stored := if ws in dirs && id in dirs[ws].entries then dirs[ws].entries[id].stored else None;
      RemoveCheckpointDir(ws, id);
      if head == Some(id) {
        SetHeadCheckpointId(ws, if stored.Some? then stored.value.record.source else None);
      } else if d.head.None? {
        NewestStays(d, id);
      }
    }

    /** Deletes the given checkpoints one directory at a time. */
    method DeleteCheckpointIds(ws: WorkspaceId, ids: seq<Id>)
      requires Valid()
      modifies this
      ensures Valid() && OthersKept(old(State()), State(), ws) && Shrinks(old(State()), State()) && disks == old(disks)
      ensures ItemsOf(DirOf(State(), ws)) == WithoutAll(old(ItemsOf(DirOf(State(), ws))), ids)
    {
      hide SortSet, Loaded, ItemsOf, HeadOf;
      for k := 0 to |ids|
        invariant Valid() && OthersKept(old(State()), State(), ws) && Shrinks(old(State()), State())
                    && disks == old(disks)
        invariant ItemsOf(DirOf(State(), ws)) == WithoutAll(old(ItemsOf(DirOf(State(), ws))), ids[..k])
      {
        RemovedDir(DirOf(State(), ws), ids[k]);
        RemoveCheckpointDir(ws, ids[k]);
        assert ids[..k + 1][..k] == ids[..k];
      }
      assert ids[..|ids|] == ids;
    }

    /** Restores the disk, drops the newer checkpoints when rolling back, and moves
        the head; an unknown checkpoint changes nothing a reader sees. */
    method RestoreCheckpoint(ws: WorkspaceId, id: Id, mode: Mode) returns (res: Result<Stored, StoreError>)
      requires Valid()
      modifies this
      ensures Valid() && OthersKept(old(State()), State(), ws) && Shrinks(old(State()), State())
      ensures res.Ok? <==> Has(old(View(State(), ws)).items, id)
      ensures res.Err? ==> View(State(), ws) == old(View(State(), ws))
      ensures res.Ok? ==>
                var was := old(View(State(), ws));
                && res.value.record == was.items[Position(was.items, id)].record
                && View(State(), ws) == Restored(was, id, mode)
    {
      hide SortSet, HeadOf, Loaded;
      PrepareWorkspace(ws);
      var listed := ListCheckpoints(ws);
      var t := 0;
      while t < |listed| && listed[t].record.id != id
        invariant t <= |listed| && forall i :: 0 <= i < t ==> listed[i].record.id != id
      {
        t := t + 1;
      }
      if t == |listed| {
        return Err(UnknownCheckpoint);
      }
      assert View(State(), ws).items[t].record.id == id;
      RestoreListed(ws, id, mode, listed, t);
      res := Ok(listed[t]);
    }

    method RestoreListed(ws: WorkspaceId, id: Id, mode: Mode, listed: seq<Stored>, t: nat)
      requires Valid() && ws in dirs && listed == ListingOf(dirs[ws]) && t < |listed|
      requires Has(View(State(), ws).items, id) && t == Position(View(State(), ws).items, id)
      modifies this
      ensures Valid() && OthersKept(old(State()), State(), ws) && Shrinks(old(State()), State())
      ensures View(State(), ws) == Restored(old(View(State(), ws)), id, mode)
    {
      ghost var f0 := State();
      ViewItems(f0, ws);
      hide SortSet, HeadOf, Loaded, ItemsOf, Position, Has, View, OthersKept, Shrinks;
      RestoreDisk(ws, id);
      ghost var f1 := State();
      ViewItems(f1, ws);
      if mode.Rollback? { DropNewer(ws, listed, t); } else { KeptNothing(f1, ws); }
      ghost var f2 := State();
      NarrowsTransitive(f0, f1, f2, ws);
      ViewItems(f2, ws);
      MoveHead(ws, id);
      NarrowsTransitive(f0, f2, State(), ws);
    }

    method RestoreDisk(ws: WorkspaceId, id: Id)
      requires Valid() && ws in dirs && Has(View(State(), ws).items, id)
      modifies this
      ensures Valid() && OthersKept(old(State()), State(), ws) && Shrinks(old(State()), State()) && dirs == old(dirs)
      ensures var was := old(View(State(), ws));
              View(State(), ws) == was.(disk := was.items[Position(was.items, id)].snapshot)
    {
      ghost var f := State();
      ListingIsStored(dirs[ws], id);
      ViewItems(f, ws);
      hide SortSet, HeadOf, Loaded, ItemsOf, Position, Has, View, OthersKept;
      PutDisk(ws, dirs[ws].entries[id].snapshot.value);
      SameEntriesShrinks(f, State(), ws);
    }

    method MoveHead(ws: WorkspaceId, id: Id)
      requires Valid()
      modifies this
      ensures Valid() && OthersKept(old(State()), State(), ws) && Shrinks(old(State()), State())
      ensures View(State(), ws) == old(View(State(), ws)).(head := Some(id))
    {
      ghost var f := State();
      hide SortSet, HeadOf, Loaded, ItemsOf, View, OthersKept, SameViews;
      SetHeadCheckpointId(ws, Some(id));
      SameEntriesShrinks(f, State(), ws);
    }

    /** Deletes what is listed behind a position. */
    method DropNewer(ws: WorkspaceId, listed: seq<Stored>, t: nat)
      requires Valid() && ws in dirs && listed == ListingOf(dirs[ws]) && t < |listed|
      modifies this
      ensures Valid() && OthersKept(old(State()), State(), ws) && Shrinks(old(State()), State()) && disks == old(disks)
      ensures ItemsOf(DirOf(State(), ws)) == old(ItemsOf(dirs[ws]))[..t + 1]
    {
      ghost var items := ItemsOf(dirs[ws]);
      var newer := seq(|listed| - t - 1, i requires 0 <= i < |listed| - t - 1 => listed[t + 1 + i].record.id);
      ListingDistinct(dirs[ws]);
      NewerDropped(items, t + 1, newer);
      assert items[..t + 1] + items[|items|..] == items[..t + 1];
      hide SortSet, HeadOf, WithoutAll, Loaded, Insert, ItemsOf;
      DeleteCheckpointIds(ws, newer);
    }

    /** The new workspace gets the checkpoint's content and no head. */
    method ForkWorkspace(ws: WorkspaceId, id: Id, into: WorkspaceId) returns (res: Result<Stored, StoreError>)
      requires Valid()
      modifies this
      ensures Valid() && OthersKept(old(State()), State(), into) && Shrinks(old(State()), State())
      ensures res.Ok? <==> Has(old(View(State(), ws)).items, id)
      ensures res.Err? ==> View(State(), into) == old(View(State(), into))
      ensures res.Ok? ==>
                var from := old(View(State(), ws)).items;
                && res.value.record == from[Position(from, id)].record
                && View(State(), into) ==
                  old(View(State(), into)).(disk := from[Position(from, id)].snapshot, head := None)
    {
      hide SortSet, HeadOf, Loaded;
      ListingIsStored(DirOf(State(), ws), id);
      if ws !in dirs || id !in dirs[ws].entries || dirs[ws].entries[id].stored.None? {
        return Err(UnknownCheckpoint);
      }
      var c := dirs[ws].entries[id];
      PrepareWorkspace(into);
      PutDisk(into, c.snapshot.value);
      SetHeadCheckpointId(into, None);
      res := Ok(c.stored.value);
    }

    method RemoveWorkspace(ws: WorkspaceId)
      requires Valid()
      modifies this
      ensures Valid() && OthersKept(old(State()), State(), ws) && Shrinks(old(State()), State())
      ensures View(State(), ws) == Blank && ws !in disks
    {
      disks := disks - {ws};
      trace := trace + [State()];
      dirs := dirs - {ws};
      trace := trace + [State()];
      assert StoredIn(NoDir) == {};
    }

    /** One operation of a run; the guest's own writes reach the live disk. */
    method Perform(op: Op, now: nat, ghost c: Clocked) returns (reply: Reply)
      requires Valid() && Shows(State(), c.world) && Timed(State(), c.times) && (op.Create? ==> Unused(State(), op.id))
      modifies this
      ensures Valid() && Shows(State(), ClockedNext(c, op, now).world) && Timed(State(), ClockedNext(c, op, now).times)
      ensures reply == Answer(c.world, op) && Grows(old(State()), State(), op)
    {
      hide *;
      if op.Create? {
        reply := PerformCreate(op, now, c);
      } else {
        reply := PerformOther(op, c.world);
        ShrinksKeeps(old(State()), State(), op, c.times);
        NextUnclocked(c, op, now);
      }
    }

    method PerformCreate(op: Op, now: nat, ghost c: Clocked) returns (reply: Reply)
      requires Valid() && Shows(State(), c.world) && Timed(State(), c.times) && op.Create? && Unused(State(), op.id)
      modifies this
      ensures Valid() && Shows(State(), ClockedNext(c, op, now).world) && Timed(State(), ClockedNext(c, op, now).times)
      ensures reply == Answer(c.world, op) && Grows(old(State()), State(), op)
    {
      hide View, ItemsOf, SortSet, Loaded, HeadOf, CreatedAt, ListedIn, CrashSafe;
      PrepareWorkspace(op.ws);
      ghost var fs := State();
      ShrinksKeeps(old(State()), fs, op, c.times);
      var r := CreateCheckpoint(op.ws, op.id, now, op.name);
      CreatedShows(fs, State(), op.ws, op.id, now, op.name, c.times);
      CreatedTimed(fs, State(), op.ws, op.id, r, c.times);
      reply := Checkpoint(r.record);
    }

    method PerformOther(op: Op, ghost w: World) returns (reply: Reply)
      requires Valid() && Shows(State(), w) && !op.Create?
      modifies this
      ensures Valid() && Shows(State(), Next(w, op)) && reply == Answer(w, op) && Shrinks(old(State()), State())
    {
      hide *;
      if op.Write? || op.WriteFile? || op.List? {
        reply := PerformOnDisk(op, w);
      } else {
        reply := PerformOnList(op, w);
      }
    }

    method PerformOnDisk(op: Op, ghost w: World) returns (reply: Reply)
      requires Valid() && Shows(State(), w) && (op.Write? || op.WriteFile? || op.List?)
      modifies this
      ensures Valid() && Shows(State(), Next(w, op)) && reply == Answer(w, op) && Shrinks(old(State()), State())
    {
      hide View, ItemsOf, SortSet, Loaded, HeadOf, Without, Position, Has;
      match op
      case Write(ws, disk) =>
        PutDisk(ws, disk);
        reply := Done;
      case WriteFile(ws, path, data) =>
        PrepareWorkspace(ws);
        ViewDisk(State(), ws);
        PutDisk(ws, disks[ws][path := data]);
        reply := Done;
      case List(ws) =>
        var listed := ListCheckpoints(ws);
        reply := Listing(seq(|listed|, i requires 0 <= i < |listed| => listed[i].record));
        ListedRecords(State(), ws);
    }

    method PerformOnList(op: Op, ghost w: World) returns (reply: Reply)
      requires Valid() && Shows(State(), w) && (op.Restore? || op.Delete? || op.Fork? || op.Remove?)
      modifies this
      ensures Valid() && Shows(State(), Next(w, op)) && reply == Answer(w, op) && Shrinks(old(State()), State())
    {
      hide View, ItemsOf, SortSet, Loaded, HeadOf, Without, Position, Has;
      match op
      case Restore(ws, id, mode) =>
        var res := RestoreCheckpoint(ws, id, mode);
        reply := if res.Ok? then Checkpoint(res.value.record) else NotFound;
      case Delete(ws, id) =>
        DeleteCheckpoint(ws, id);
        reply := Done;
      case Fork(ws, id, into) =>
        var res := ForkWorkspace(ws, id, into);
        reply := if res.Ok? then Done else NotFound;
      case Remove(ws) =>
        RemoveWorkspace(ws);
        reply := Done;
    }

    /** Any run on a fresh store, under any clock, answers as the clocked specification does
        and ends in its state. */
    method Replay(ops: seq<Op>, clock: seq<nat>) returns (replies: seq<Reply>)
      requires Valid() && Shows(State(), map[]) && dirs == map[]
      requires Legal(ops) && |clock| == |ops|
      modifies this
      ensures Valid() && replies == ClockedAnswers(ops, clock) && Shows(State(), ClockedRun(ops, clock).world)
    {
      replies := [];
      assert Timed(State(), map[]);
      hide Shows, Timed, Grows, ClockedNext;
      for k := 0 to |ops|
        invariant Valid() && replies == ClockedAnswers(ops[..k], clock[..k])
        invariant Shows(State(), ClockedRun(ops[..k], clock[..k]).world)
        invariant Timed(State(), ClockedRun(ops[..k], clock[..k]).times)
        invariant forall ws, id :: id in DirOf(State(), ws).entries ==> MadeIn(ops, k, id)
      {
        ghost var fs := State();
        assert ops[..k + 1][..k] == ops[..k] && clock[..k + 1][..k] == clock[..k];
        if ops[k].Create? { NotMadeYet(ops, k, State()); }
        var reply := Perform(ops[k], clock[k], ClockedRun(ops[..k], clock[..k]));
        replies := replies + [reply];
        MadeOn(ops, k, fs, State());
      }
      assert ops[..|ops|] == ops && clock[..|clock|] == clock;
    }
  }

  lemma NextUnclocked(c: Clocked, op: Op, now: nat)
    requires !op.Create?
    ensures ClockedNext(c, op, now) == Clocked(Next(c.world, op), c.times)
  {}

  /** One of the first operations created this checkpoint. */
  ghost predicate MadeIn(ops: seq<Op>, k: nat, id: Id)
    requires k <= |ops|
  {
    exists j :: 0 <= j < k && ops[j].Create? && ops[j].id == id
  }

  lemma NotMadeYet(ops: seq<Op>, k: nat, fs: Files)
    requires Legal(ops) && k < |ops| && ops[k].Create?
    requires forall ws, id :: id in DirOf(fs, ws).entries ==> MadeIn(ops, k, id)
    ensures Unused(fs, ops[k].id)
  {
    assert !MadeIn(ops, k, ops[k].id);
  }

  lemma MadeOn(ops: seq<Op>, k: nat, fs: Files, fs': Files)
    requires k < |ops| && Grows(fs, fs', ops[k])
    requires forall ws, id :: id in DirOf(fs, ws).entries ==> MadeIn(ops, k, id)
    ensures forall ws, id :: id in DirOf(fs', ws).entries ==> MadeIn(ops, k + 1, id)
  {
    forall ws, id | id in DirOf(fs', ws).entries ensures MadeIn(ops, k + 1, id) {
      if id in DirOf(fs, ws).entries {
        assert MadeIn(ops, k, id);
        var j :| 0 <= j < k && ops[j].Create? && ops[j].id == id;
      }
    }
  }
}
