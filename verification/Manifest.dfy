/** Workspace snapshots and their difference. */
module Manifest {
  import opened Wrappers
  import opened Text

  datatype FileKind = File | Directory | Symlink

  datatype FileNode = FileNode(path: string, kind: FileKind, size: nat, digest: Option<string>, target: Option<string>)

  type Snapshot = map<string, FileNode>

  datatype ChangeKind = Added | Modified | Deleted | TypeChanged

  datatype Change = Change(path: string, kind: ChangeKind, kindAfter: Option<FileKind>)

  ghost predicate LastOf(entries: seq<FileNode>, path: string, node: FileNode) {
    exists i :: 0 <= i < |entries| && entries[i] == node && node.path == path
                && forall j :: i < j < |entries| ==> entries[j].path != path
  }

  /** The snapshot of a list of entries: of entries with one path, the last counts. */
  ghost predicate IsSnapshot(entries: seq<FileNode>, s: Snapshot) {
    && (forall i :: 0 <= i < |entries| ==> entries[i].path in s)
    && (forall p :: p in s ==> LastOf(entries, p, s[p]))
  }

  method FromEntries(entries: seq<FileNode>) returns (s: Snapshot)
    ensures IsSnapshot(entries, s)
  {
    s := map[];
    for k := 0 to |entries|
      invariant IsSnapshot(entries[..k], s)
    {
      assert entries[..k + 1] == entries[..k] + [entries[k]];
      AddEntry(entries[..k], entries[k], s);
      s := s[entries[k].path := entries[k]];
    }
    assert entries[..|entries|] == entries;
  }

  lemma StillLast(entries: seq<FileNode>, e: FileNode, path: string, node: FileNode)
    requires LastOf(entries, path, node) && e.path != path
    ensures LastOf(entries + [e], path, node)
  {
    var i :| 0 <= i < |entries| && entries[i] == node && node.path == path
             && forall j :: i < j < |entries| ==> entries[j].path != path;
    assert (entries + [e])[i] == node;
  }

  lemma {:induction false} AddEntry(entries: seq<FileNode>, e: FileNode, s: Snapshot)
    requires IsSnapshot(entries, s)
    ensures IsSnapshot(entries + [e], s[e.path := e])
  {
    assert (entries + [e])[|entries|] == e;
    assert LastOf(entries + [e], e.path, e);
    hide LastOf;
    forall p | p in s && p != e.path ensures LastOf(entries + [e], p, s[p]) { StillLast(entries, e, p, s[p]); }
  }

  function Lookup(s: Snapshot, path: string): Option<FileNode> {
    if path in s then Some(s[path]) else None
  }

  ghost predicate Differ(a: Snapshot, b: Snapshot, path: string) {
    Lookup(a, path) != Lookup(b, path)
  }

  /** What is to be said about a path on which two snapshots differ. */
  ghost predicate Reports(a: Snapshot, b: Snapshot, c: Change) {
    && Differ(a, b, c.path)
    && (c.kind == Added <==> c.path !in a)
    && (c.kind == Deleted <==> c.path !in b)
    && (c.kind == TypeChanged <==> c.path in a && c.path in b && a[c.path].kind != b[c.path].kind)
    && c.kindAfter == if c.path in b then Some(b[c.path].kind) else None
  }

  ghost predicate Ordered(changes: seq<Change>) {
    forall i, j :: 0 <= i < j < |changes| ==> Less(changes[i].path, changes[j].path)
  }

  ghost predicate Mentions(changes: seq<Change>, path: string) {
    exists i :: 0 <= i < |changes| && changes[i].path == path
  }

  /** A report of every differing path and no other, once each, in path order. */
  ghost predicate IsDiff(a: Snapshot, b: Snapshot, changes: seq<Change>) {
    && Ordered(changes)
    && (forall i :: 0 <= i < |changes| ==> Reports(a, b, changes[i]))
    && (forall p :: Differ(a, b, p) ==> Mentions(changes, p))
  }

  /** The next path of an ordered set. */
  method First(paths: set<string>) returns (least: string)
    requires paths != {}
    ensures least in paths && forall p :: p in paths ==> p == least || Less(least, p)
  {
    least :| least in paths;
    var rest := paths - {least};
    while rest != {}
      invariant rest <= paths && least in paths && least !in rest
      invariant forall p :: p in paths && p !in rest ==> p == least || Less(least, p)
      decreases rest
    {
      var p :| p in rest;
      LessTotal(p, least);
      if Less(p, least) {
        forall q | q in paths && q !in rest - {p} ensures q == p || Less(p, q) {
          if q != p && q != least { LessTransitive(p, least, q); }
        }
        least := p;
      }
      rest := rest - {p};
    }
  }

  lemma Appended(a: Snapshot, b: Snapshot, changes: seq<Change>, c: Change)
    requires Ordered(changes) && forall i :: 0 <= i < |changes| ==> Less(changes[i].path, c.path)
    ensures Ordered(changes + [c]) && Mentions(changes + [c], c.path)
    ensures forall p :: Mentions(changes, p) ==> Mentions(changes + [c], p)
  {
    hide Less;
    var all := changes + [c];
    assert all[|changes|] == c;
    forall p | Mentions(changes, p) ensures Mentions(all, p) {
      var i :| 0 <= i < |changes| && changes[i].path == p;
      assert all[i].path == p;
    }
  }

  method Diff(a: Snapshot, b: Snapshot) returns (changes: seq<Change>)
    ensures IsDiff(a, b, changes)
  {
    hide Less, Mentions, Ordered;
    changes := [];
    assert Ordered(changes) by { NothingToOrder(); }
    var paths := a.Keys + b.Keys;
    while paths != {}
      invariant paths <= a.Keys + b.Keys
      invariant Ordered(changes) && forall i :: 0 <= i < |changes| ==> Reports(a, b, changes[i])
      invariant forall i, p :: 0 <= i < |changes| && p in paths ==> Less(changes[i].path, p)
      invariant forall p :: Differ(a, b, p) && p !in paths ==> Mentions(changes, p)
      decreases paths
    {
      var path := First(paths);
      ghost var before := changes;
      var change: Option<Change> := None;
      if path !in a {
        change := Some(Change(path, Added, Some(b[path].kind)));
      } else if path !in b {
        change := Some(Change(path, Deleted, None));
      } else if a[path].kind != b[path].kind {
        change := Some(Change(path, TypeChanged, Some(b[path].kind)));
      } else if a[path] != b[path] {
        change := Some(Change(path, Modified, Some(b[path].kind)));
      }
      if change.Some? {
        Appended(a, b, changes, change.value);
        changes := changes + [change.value];
      }
      assert path !in paths - {path} by { LessTotal(path, path); }
      paths := paths - {path};
    }
  }

  lemma NothingToOrder() ensures Ordered([]) {}

  // ---- what a difference says ----

  lemma {:induction false} OrderedUnique(x: seq<Change>, y: seq<Change>)
    requires Ordered(x) && Ordered(y) && forall p :: Mentions(x, p) <==> Mentions(y, p)
    ensures |x| == |y| && forall i :: 0 <= i < |x| ==> x[i].path == y[i].path
  {
    assert x != [] ==> Mentions(x, x[0].path);
    assert y != [] ==> Mentions(y, y[0].path);
    if x != [] {
      var j :| 0 <= j < |y| && y[j].path == x[0].path;
      var i :| 0 <= i < |x| && x[i].path == y[0].path;
      FirstAgree(x, y, i, j);
      TailOrdered(x);
      TailOrdered(y);
      hide Ordered, Mentions, Less;
      forall p ensures Mentions(x[1..], p) <==> Mentions(y[1..], p) {
        TailMentions(x, p);
        TailMentions(y, p);
      }
      OrderedUnique(x[1..], y[1..]);
      assert x == [x[0]] + x[1..] && y == [y[0]] + y[1..];
    }
  }

  lemma TailOrdered(x: seq<Change>)
    requires x != [] && Ordered(x)
    ensures Ordered(x[1..])
  {
    hide Less;
  }

  lemma FirstAgree(x: seq<Change>, y: seq<Change>, i: nat, j: nat)
    requires Ordered(x) && Ordered(y) && i < |x| && j < |y| && y[j].path == x[0].path && x[i].path == y[0].path
    ensures x[0].path == y[0].path
  {
    hide Less;
    LessTotal(x[0].path, y[0].path);
  }

  lemma TailMentions(x: seq<Change>, p: string)
    requires x != [] && Ordered(x)
    ensures Mentions(x[1..], p) <==> Mentions(x, p) && p != x[0].path
  {
    hide Less;
    LessTotal(x[0].path, x[0].path);
    if Mentions(x, p) && p != x[0].path {
      var i :| 0 <= i < |x| && x[i].path == p;
      assert x[1..][i - 1].path == p;
    }
    if Mentions(x[1..], p) {
      var i :| 0 <= i < |x[1..]| && x[1..][i].path == p;
      assert x[i + 1].path == p;
    }
  }

  lemma MentionsDiffering(a: Snapshot, b: Snapshot, changes: seq<Change>, p: string)
    requires IsDiff(a, b, changes)
    ensures Mentions(changes, p) <==> Differ(a, b, p)
  {}

  /** Two snapshots have one difference. */
  lemma {:induction false} DiffUnique(a: Snapshot, b: Snapshot, x: seq<Change>, y: seq<Change>)
    requires IsDiff(a, b, x) && IsDiff(a, b, y)
    ensures x == y
  {
    hide Mentions, Ordered, Differ, Lookup;
    forall p ensures Mentions(x, p) <==> Mentions(y, p) {
      MentionsDiffering(a, b, x, p);
      MentionsDiffering(a, b, y, p);
    }
    OrderedUnique(x, y);
  }

  /** It is empty exactly when the snapshots are equal. */
  lemma {:induction false} EmptyIffEqual(a: Snapshot, b: Snapshot, changes: seq<Change>)
    requires IsDiff(a, b, changes)
    ensures changes == [] <==> a == b
  {
    if changes == [] {
      forall p ensures p in a <==> p in b { MentionsDiffering(a, b, changes, p); }
      forall p | p in a ensures a[p] == b[p] { MentionsDiffering(a, b, changes, p); }
    } else {
      assert Differ(a, b, changes[0].path);
    }
  }

  function Mirrored(k: ChangeKind): ChangeKind {
    match k case Added => Deleted case Deleted => Added case _ => k
  }

  /** Swapping the snapshots keeps the paths and mirrors added and deleted. */
  lemma {:induction false} SwapMirrors(a: Snapshot, b: Snapshot, x: seq<Change>, y: seq<Change>)
    requires IsDiff(a, b, x) && IsDiff(b, a, y)
    ensures |x| == |y| && forall i :: 0 <= i < |x| ==> y[i].path == x[i].path && y[i].kind == Mirrored(x[i].kind)
  {
    hide Mentions, Ordered;
    forall p ensures Mentions(x, p) <==> Mentions(y, p) {
      MentionsDiffering(a, b, x, p);
      MentionsDiffering(b, a, y, p);
    }
    OrderedUnique(x, y);
    forall i | 0 <= i < |x| ensures y[i].kind == Mirrored(x[i].kind) {
      assert Reports(a, b, x[i]) && Reports(b, a, y[i]);
    }
  }

  /** A path that differs from first to last differs on one of the steps. */
  lemma {:induction false} StepsCover(a: Snapshot, b: Snapshot, c: Snapshot, ab: seq<Change>, bc: seq<Change>,
                                      ac: seq<Change>, p: string)
    requires IsDiff(a, b, ab) && IsDiff(b, c, bc) && IsDiff(a, c, ac) && Mentions(ac, p)
    ensures Mentions(ab, p) || Mentions(bc, p)
  {
    MentionsDiffering(a, c, ac, p);
    assert Differ(a, b, p) || Differ(b, c, p);
  }
}
