/**
  The arborist: one process that renames blobs into the directory tree and trims empty directories
  (bio4d/arbor.c).
 */
module Arbor {
  import opened Text

  /** Names joined by single slashes. */
  type Path = string

  predicate WellNamed(p: Path) {
    && p != [] && p[0] != '/' && p[|p| - 1] != '/'
    && forall i :: 0 <= i < |p| - 1 && p[i] == '/' ==> p[i + 1] != '/'
  }

  /** rindex(p, '/') */
  function LastSlash(p: Path): (at: Option<nat>)
    ensures at.Some? ==> at.value < |p| && p[at.value] == '/' && forall i :: at.value < i < |p| ==> p[i] != '/'
    ensures at.None? ==> forall i :: 0 <= i < |p| ==> p[i] != '/'
  {
    if p == [] then None
    else if p[|p| - 1] == '/' then Some(|p| - 1)
    else LastSlash(p[..|p| - 1])
  }

  /** `d` is the directory of `p`. */
  predicate IsParent(d: Path, p: Path) {
    LastSlash(p).Some? && d == p[..LastSlash(p).value]
  }

  /** `d` is a directory on the way to `p`. */
  predicate IsAncestor(d: Path, p: Path) {
    |d| < |p| && p[|d|] == '/' && d == p[..|d|]
  }

  /** What is below a directory, at any depth, has its next directory as an ancestor or is its child. */
  lemma {:induction false} ParentIsAncestor(d: Path, p: Path)
    requires IsParent(d, p)
    ensures IsAncestor(d, p)
  {
  }

  lemma {:induction false} AncestorOfParent(d: Path, q: Path, p: Path)
    requires IsParent(q, p) && IsAncestor(d, p)
    ensures d == q || IsAncestor(d, q)
  {
    assert |d| <= |q|;
    if |d| < |q| {
      assert q[|d|] == p[|d|] && d == q[..|d|];
    }
  }

  datatype Tree = Tree(dirs: set<Path>, blobs: map<Path, string>)

  predicate Holds(t: Tree, p: Path) {
    p in t.dirs || p in t.blobs
  }

  /** Everything has its parent, and nothing is both a directory and a blob. */
  ghost predicate Closed(t: Tree) {
    && (forall d, p {:trigger IsParent(d, p)} :: Holds(t, p) && IsParent(d, p) ==> d in t.dirs)
    && (forall p :: p in t.dirs ==> p !in t.blobs)
  }

  /** In such a tree every blob and directory has all its ancestors. */
  lemma {:induction false} AncestorsExist(t: Tree, d: Path, p: Path)
    requires Closed(t) && Holds(t, p) && IsAncestor(d, p)
    ensures d in t.dirs
    decreases |p|
  {
    var q := p[..LastSlash(p).value];
    assert IsParent(q, p);
    AncestorOfParent(d, q, p);
    if d != q {
      AncestorsExist(t, d, q);
    }
  }

  ghost predicate Empty(t: Tree, d: Path) {
    forall p {:trigger IsParent(d, p)} :: Holds(t, p) ==> !IsParent(d, p)
  }

  /** Below an empty directory there is nothing at any depth. */
  lemma {:induction false} NothingBelowEmpty(t: Tree, d: Path, p: Path)
    requires Closed(t) && Empty(t, d) && IsAncestor(d, p)
    ensures !Holds(t, p)
    decreases |p|
  {
    var q := p[..LastSlash(p).value];
    assert IsParent(q, p);
    AncestorOfParent(d, q, p);
    if d != q {
      NothingBelowEmpty(t, d, q);
    }
  }

  lemma {:induction false} RemoveEmpty(t: Tree, d: Path)
    requires Closed(t) && Empty(t, d)
    ensures Closed(t.(dirs := t.dirs - {d}))
  {
  }

  lemma {:induction false} AddDirectory(t: Tree, d: Path)
    requires Closed(t) && d !in t.blobs && forall q :: IsParent(q, d) ==> q in t.dirs
    ensures Closed(t.(dirs := t.dirs + {d}))
  {
  }

  lemma {:induction false} AddBlob(t: Tree, p: Path, bytes: string)
    requires Closed(t) && p !in t.dirs && forall q :: IsParent(q, p) ==> q in t.dirs
    ensures Closed(t.(blobs := t.blobs[p := bytes]))
  {
  }

  // ---- The requests --------------------------------------------------------------------------------

  /** The directories on the way to the first `n` characters of a path, but for those that are blobs. */
  ghost function Ways(p: Path, n: nat): set<Path>
    requires n <= |p|
  {
    if n == 0 then {} else Ways(p, n - 1) + if p[n - 1] == '/' then {p[..n - 1]} else {}
  }

  lemma {:induction false} WaysAre(p: Path, n: nat, d: Path)
    requires n <= |p|
    ensures d in Ways(p, n) <==> |d| < n && IsAncestor(d, p)
  {
    if n > 0 {
      WaysAre(p, n - 1, d);
      if p[n - 1] == '/' && d == p[..n - 1] {
        assert |d| == n - 1;
      }
    }
  }

  class Arborist {
    var dirs: set<Path>
    var blobs: map<Path, string>

    ghost function View(): Tree reads this {
      Tree(dirs, blobs)
    }

    ghost predicate Valid() reads this {
      Closed(View())
    }

    constructor ()
      ensures Valid() && dirs == {} && blobs == map[]
    {
      dirs, blobs := {}, map[];
    }

    /** The parent of a path is a directory, or the path is relative to the working directory. */
    method ParentExists(p: Path) returns (ok: bool)
      ensures ok <==> forall q :: IsParent(q, p) ==> q in dirs
    {
      var slash := LastSlash(p);
      ok := slash.None? || p[..slash.value] in dirs;
      if !ok {
        assert IsParent(p[..slash.value], p);
      }
    }

    /** mkdir, for which existing is no error. */
    method MakePath(p: Path) returns (ok: bool)
      requires Valid()
      modifies this`dirs
      ensures Valid()
      ensures ok <==> p in old(dirs) || p in blobs || forall q :: IsParent(q, p) ==> q in old(dirs)
      ensures dirs == if ok && p !in blobs then old(dirs) + {p} else old(dirs)
    {
      if p in dirs || p in blobs {
        return true;
      }
      ok := ParentExists(p);
      if ok {
        AddDirectory(View(), p);
        dirs := dirs + {p};
      }
    }

    /** The loop of rename_blob over the slashes of the target. */
    method MakeWay(target: Path) returns (ok: bool)
      requires Valid()
      modifies this`dirs
      ensures Valid()
      ensures dirs <= old(dirs) + Ways(target, |target|) && old(dirs) <= dirs
      ensures ok ==> forall d :: IsAncestor(d, target) ==> d in dirs || d in blobs
      ensures !ok ==> exists d :: IsAncestor(d, target) && d in blobs
    {
      for i := 0 to |target|
        invariant Valid()
        invariant dirs <= old(dirs) + Ways(target, i) && old(dirs) <= dirs
        invariant forall d :: IsAncestor(d, target) && |d| < i ==> d in dirs || d in blobs
      {
        if target[i] == '/' {
          var p := target[..i];
          assert IsAncestor(p, target);
          ghost var before := dirs;
          ok := MakePath(p);
          if !ok {
            ghost var q :| IsParent(q, p) && q !in before;
            ParentIsAncestor(q, p);
            assert IsAncestor(q, target);
            WaysGrow(target, i, |target|);
            return;
          }
        }
      }
      ok := true;
    }

    /**
      rename_blob: works exactly when no directory on the way is a blob and the target is no directory. Then
      the directories on the way are there, and the blob; else no blob changes.
     */
    method RenameBlob(bytes: string, target: Path) returns (ok: bool)
      requires Valid() && WellNamed(target)
      modifies this
      ensures Valid()
      ensures ok <==> target !in old(dirs) && forall d :: IsAncestor(d, target) ==> d !in old(blobs)
      ensures ok ==> blobs == old(blobs)[target := bytes] && forall d :: d in dirs <==> d in old(dirs) || IsAncestor(d, target)
      ensures !ok ==> blobs == old(blobs)
    {
      ok := MakeWay(target);
      forall d ensures d in Ways(target, |target|) <==> IsAncestor(d, target) {
        WaysAre(target, |target|, d);
      }
      if !ok {
        return;
      }
      ok := ParentExists(target);
      if !ok {
        ghost var q :| IsParent(q, target) && q !in dirs;
        ParentIsAncestor(q, target);
        return;
      }
      if target in dirs {
        assert !IsAncestor(target, target);
        return false;
      }
      NoBlobOnTheWay(View(), target);
      AddBlob(View(), target, bytes);
      blobs := blobs[target := bytes];
    }

    /** rmdir looks for children. */
    ghost predicate Childless(d: Path) reads this {
      Empty(View(), d)
    }

    method IsEmpty(d: Path) returns (yes: bool)
      ensures yes <==> Childless(d)
    {
      yes := (forall p :: p in dirs ==> !IsParent(d, p)) && (forall p :: p in blobs ==> !IsParent(d, p));
    }

    /** io_rmdir */
    method RemoveDir(p: Path) returns (r: Rmdir)
      requires Valid()
      modifies this`dirs
      ensures Valid() && dirs == if r.Removed? then old(dirs) - {p} else old(dirs)
      ensures r.Removed? <==> p in old(dirs) && old(Childless(p))
      ensures r.NotEmpty? <==> p in old(dirs) && !old(Childless(p))
      ensures r.NoEntry? <==> p !in old(dirs) && !BlockedByBlob(old(View()), p)
    {
      if p !in dirs {
        return if exists b :: b in blobs && (b == p || IsAncestor(b, p)) then NotDirectory else NoEntry;
      }
      var empty := IsEmpty(p);
      if !empty {
        return NotEmpty;
      }
      RemoveEmpty(View(), p);
      dirs := dirs - {p};
      r := Removed;
    }

    /**
      trim_blob_dir: removes empty directories from the deepest up, and no blob; no directory on the way is
      left empty.  It panics, before it changed anything, exactly on a path that is a blob or that has
      vanished together with its parent.
     */
    method TrimBlobDir(path: Path) returns (count: nat, panicked: bool)
      requires Valid()
      modifies this`dirs
      ensures Valid() && dirs <= old(dirs) && count == |old(dirs)| - |dirs|
      ensures forall d :: d in old(dirs) && d !in dirs ==> OnTheWay(d, path) && forall b :: b in blobs ==> !IsAncestor(d, b)
      ensures panicked <==> Vanished(old(View()), path)
      ensures panicked ==> dirs == old(dirs)
      ensures !panicked ==> forall d :: d in dirs && OnTheWay(d, path) ==> !Childless(d)
    {
      var p := path;
      count, panicked := 0, false;
      ghost var before := View();
      while true
        invariant Trimmed(before, View(), path, p) && count == |before.dirs| - |dirs|
        invariant (p == path && dirs == before.dirs) || (!Vanished(before, path) && p in dirs)
        decreases |p|
      {
        ghost var now := View();
        var r := RemoveDir(p);
        if r.NotEmpty? {
          TrimDone(before, now, path, p);
          return;
        }
        if r.NotDirectory? {
          BlobOnTheWay(before, path);
          panicked := true;
          return;
        }
        if r.Removed? {
          count := count + 1;
        }
        TrimOne(before, now, path, p);
        var slash := LastSlash(p);
        if slash.None? {
          TrimTop(before, View(), path, p);
          return;
        }
        var q := p[..slash.value];
        assert IsParent(q, p);
        TrimUp(before, View(), path, p, q);
        if !(q in dirs || q in blobs) {
          panicked := true;
          return;
        }
        ParentIsDirectory(now, p, q);
        p := q;
      }
    }
  }

  datatype Rmdir = Removed | NotEmpty | NoEntry | NotDirectory

  predicate OnTheWay(d: Path, path: Path) {
    d == path || IsAncestor(d, path)
  }

  ghost predicate BlockedByBlob(t: Tree, p: Path) {
    exists b :: b in t.blobs && OnTheWay(b, p)
  }

  /** The path is no directory, and is a blob or lacks its parent. */
  ghost predicate Vanished(t: Tree, path: Path) {
    path !in t.dirs && (path in t.blobs || exists q :: IsParent(q, path) && q !in t.dirs)
  }

  /** Only directories on the way went, none with a blob below; those below `p` are all gone. */
  ghost predicate Trimmed(before: Tree, now: Tree, path: Path, p: Path) {
    && Closed(now) && now.dirs <= before.dirs && now.blobs == before.blobs && OnTheWay(p, path)
    && (forall d :: d in before.dirs && d !in now.dirs ==> OnTheWay(d, path) && forall b :: b in now.blobs ==> !IsAncestor(d, b))
    && (forall d :: d in now.dirs && OnTheWay(d, path) ==> |d| <= |p|)
  }

  lemma {:induction false} TrimDone(before: Tree, now: Tree, path: Path, p: Path)
    requires Trimmed(before, now, path, p) && p in now.dirs && !Empty(now, p)
    ensures forall d :: d in now.dirs && OnTheWay(d, path) ==> !Empty(now, d)
  {
    NotEmptyUp(now, p, path);
  }

  lemma {:induction false} TrimOne(before: Tree, now: Tree, path: Path, p: Path)
    requires Trimmed(before, now, path, p) && (p in now.dirs ==> Empty(now, p))
    ensures Trimmed(before, now.(dirs := now.dirs - {p}), path, p)
  {
    if p in now.dirs {
      forall b | b in now.blobs ensures !IsAncestor(p, b) {
        if IsAncestor(p, b) {
          NothingBelowEmpty(now, p, b);
        }
      }
      RemoveEmpty(now, p);
    } else {
      assert now.dirs - {p} == now.dirs;
    }
  }

  lemma {:induction false} TrimUp(before: Tree, now: Tree, path: Path, p: Path, q: Path)
    requires Trimmed(before, now, path, p) && p !in now.dirs && IsParent(q, p)
    ensures Trimmed(before, now, path, q)
  {
    Upwards(p, path);
    forall d | d in now.dirs && OnTheWay(d, path) ensures |d| <= |q| {
      assert |d| == |p| ==> d == p;
    }
  }

  lemma {:induction false} SlashBelow(d: Path, p: Path, path: Path)
    requires OnTheWay(d, path) && OnTheWay(p, path) && |d| < |p|
    ensures p[|d|] == '/'
  {
    assert p[|d|] == path[|d|];
  }

  lemma {:induction false} TrimTop(before: Tree, now: Tree, path: Path, p: Path)
    requires Trimmed(before, now, path, p) && p !in now.dirs && LastSlash(p).None?
    ensures forall d :: OnTheWay(d, path) ==> d !in now.dirs
  {
    forall d | OnTheWay(d, path) ensures d !in now.dirs {
      if |d| < |p| {
        SlashBelow(d, p, path);
      } else if |d| == |p| {
        assert d == p;
      }
    }
  }

  /** The directory that a blob on the way blocks has no parent. */
  lemma {:induction false} BlobOnTheWay(t: Tree, path: Path)
    requires Closed(t) && path !in t.dirs
    ensures BlockedByBlob(t, path) ==> Vanished(t, path)
  {
    if b :| b in t.blobs && IsAncestor(b, path) {
      var q := path[..LastSlash(path).value];
      assert IsParent(q, path);
      AncestorOfParent(b, q, path);
      if q in t.dirs && b != q {
        AncestorsExist(t, b, q);
      }
    }
  }

  lemma {:induction false} ParentIsDirectory(t: Tree, p: Path, q: Path)
    requires Closed(t) && IsParent(q, p) && Holds(t, q)
    ensures p in t.dirs || !BlockedByBlob(t, p) ==> q in t.dirs && q != p
  {
    ParentIsAncestor(q, p);
    if p !in t.dirs && q in t.blobs {
      assert OnTheWay(q, p);
    }
  }

  lemma {:induction false} WaysGrow(p: Path, m: nat, n: nat)
    requires m <= n <= |p|
    ensures Ways(p, m) <= Ways(p, n)
  {
    if m < n {
      WaysGrow(p, m, n - 1);
    }
  }

  /** When the parent of the target is a directory, so are all on the way. */
  lemma {:induction false} NoBlobOnTheWay(t: Tree, target: Path)
    requires Closed(t) && (forall q :: IsParent(q, target) ==> q in t.dirs)
    ensures forall d :: IsAncestor(d, target) ==> d in t.dirs && d !in t.blobs
  {
    forall d | IsAncestor(d, target) ensures d in t.dirs && d !in t.blobs {
      var q := target[..LastSlash(target).value];
      assert IsParent(q, target);
      AncestorOfParent(d, q, target);
      if d != q {
        AncestorsExist(t, d, q);
      }
    }
  }

  /** The next path up is an ancestor, and none is between. */
  lemma {:induction false} Upwards(p: Path, path: Path)
    requires LastSlash(p).Some? && (p == path || IsAncestor(p, path))
    ensures IsAncestor(p[..LastSlash(p).value], path)
    ensures forall d :: (d == path || IsAncestor(d, path)) && |d| < |p| ==> |d| <= LastSlash(p).value
  {
    forall d | IsAncestor(d, path) && |d| < |p| ensures |d| <= LastSlash(p).value {
      assert p[|d|] == '/';
    }
  }

  /** Above a directory that is not empty, no directory is. */
  lemma {:induction false} NotEmptyUp(t: Tree, p: Path, path: Path)
    requires Closed(t) && p in t.dirs && !Empty(t, p) && (p == path || IsAncestor(p, path))
    ensures forall d :: d in t.dirs && (d == path || IsAncestor(d, path)) && |d| <= |p| ==> !Empty(t, d)
  {
    forall d | IsAncestor(d, path) && |d| < |p| ensures !Empty(t, d) {
      assert IsAncestor(d, p);
      if Empty(t, d) {
        NothingBelowEmpty(t, d, p);
        assert false;
      }
    }
    forall d | (d == path || IsAncestor(d, path)) && |d| == |p| ensures d == p {
    }
  }
}
