/**
 Moving a service's files: a walk over a source tree that makes every directory and renames every file into the
 destination (promotion-service/pkg/utils/githandler.go:197-263).
 */
module Overlay {
  import opened Wrappers
  import opened FileTree
  import opened ServicePath
  import opened Delivery

  /** The entry at `q` once the tree at `p` is laid over the tree at `d`: files have left `p`, its directories stay. */
  function Laid(t: Tree, p: Path, d: Path, q: Path): Option<Entry> {
    if Under(d, q) then
      var o := Origin(p, d, q);
      if o in t then Some(t[o]) else At(t, q)
    else if Under(p, q) && LeafAt(t, q).Some? then None
    else At(t, q)
  }

  ghost predicate LaidOver(t: Tree, t': Tree, p: Path, d: Path) {
    forall q :: At(t', q) == Laid(t, p, d, q)
  }

  /** The same when only the children in `done` have been walked. */
  function LaidPart(t: Tree, p: Path, d: Path, done: set<string>, q: Path): Option<Entry> {
    if q == d then Some(Dir)
    else if (d < q && q[|d|] in done) || (p < q && q[|p|] in done) then Laid(t, p, d, q)
    else At(t, q)
  }

  ghost predicate LaidOverPart(t: Tree, t': Tree, p: Path, d: Path, done: set<string>) {
    forall q :: At(t', q) == LaidPart(t, p, d, done, q)
  }

  /** No file meets a directory. */
  ghost predicate NoClash(t: Tree, p: Path, d: Path) {
    forall q :: Under(d, q) && q in t && Origin(p, d, q) in t ==> (t[q].Dir? <==> t[Origin(p, d, q)].Dir?)
  }

  /** Neither tree reaches into the other. */
  lemma ApartBelow(p: Path, d: Path, q: Path)
    requires Apart(p, d)
    ensures !(Under(p, q) && Under(d, q))
    ensures Under(d, q) ==> Under(p, Origin(p, d, q)) && !Under(d, Origin(p, d, q))
  {
    if Under(p, q) && Under(d, q) { Comparable(p, d, q); }
    if Under(d, q) {
      var o := Origin(p, d, q);
      if Under(d, o) { Comparable(p, d, o); }
    }
  }

  lemma ApartChildren(p: Path, d: Path, n: string)
    requires Apart(p, d)
    ensures Apart(p + [n], d + [n]) && Apart(p, d + [n]) && Apart(p + [n], d)
  {
    if Under(p, d + [n]) { UnderChild(p, d, n); }
    if Under(d, p + [n]) { UnderChild(d, p, n); }
    if Under(p + [n], d + [n]) { UnderChild(p + [n], d, n); }
    if Under(d + [n], p + [n]) { UnderChild(d + [n], p, n); }
    assert Under(p, p + [n]) && Under(d, d + [n]);
  }

  lemma UnderChild(a: Path, b: Path, n: string)
    requires Under(a, b + [n])
    ensures Under(a, b) || Under(b, a)
  {}

  lemma LaidStart(t: Tree, p: Path, d: Path)
    requires WellFormed(t) && d != [] && IsDir(t, d[..|d| - 1]) && (d in t ==> t[d].Dir?)
    ensures LaidOverPart(t, WithDirs(t, d), p, d, {})
  {
    WithDirsAt(t, d);
    forall q ensures At(WithDirs(t, d), q) == LaidPart(t, p, d, {}, q) {
      if Under(q, d) && q != d {
        UnderParent(q, d);
        if q != d[..|d| - 1] { PrefixIsDir(t, q, d[..|d| - 1]); }
      }
    }
  }

  lemma LaidAll(t: Tree, t': Tree, p: Path, d: Path)
    requires WellFormed(t) && IsDir(t, p) && Apart(p, d) && LaidOverPart(t, t', p, d, Names(t, p))
    ensures LaidOver(t, t', p, d)
  {
    forall q ensures At(t', q) == Laid(t, p, d, q) {
      assert At(t', q) == LaidPart(t, p, d, Names(t, p), q);
      LaidAllAt(t, p, d, q);
    }
  }

  lemma LaidAllAt(t: Tree, p: Path, d: Path, q: Path)
    requires WellFormed(t) && IsDir(t, p) && Apart(p, d)
    ensures LaidPart(t, p, d, Names(t, p), q) == Laid(t, p, d, q)
  {
    ApartBelow(p, d, q);
    assert Under(d, q) <==> d == q || d < q;
    assert Under(p, q) <==> p == q || p < q;
    if q == d {
      assert Origin(p, d, q) == p;
    } else if d < q {
      ThroughChild(t, p, Origin(p, d, q));
    } else if p < q {
      ThroughChild(t, p, q);
    }
  }

  /** One more child. */
  lemma LaidStep(t: Tree, u: Tree, u': Tree, p: Path, d: Path, done: set<string>, n: string)
    requires Apart(p, d) && n !in done && LaidOverPart(t, u, p, d, done)
    requires LaidOver(u, u', p + [n], d + [n])
    ensures LaidOverPart(t, u', p, d, done + {n})
  {
    forall q ensures At(u', q) == LaidPart(t, p, d, done + {n}, q) {
      assert At(u', q) == Laid(u, p + [n], d + [n], q);
      assert At(u, q) == LaidPart(t, p, d, done, q);
      ApartChildren(p, d, n);
      ApartBelow(p, d, q);
      if Under(d + [n], q) {
        OriginOfChild(p, d, n, q);
        var o := Origin(p, d, q);
        ChildOrigin(p, d, n, q);
        assert At(u, o) == LaidPart(t, p, d, done, o);
      } else if Under(p + [n], q) {
        assert q[..|p| + 1] == p + [n];
        assert q[|p|] == n;
      } else {
        ThroughName(d, n, q);
        ThroughName(p, n, q);
      }
    }
  }

  lemma ChildOrigin(p: Path, d: Path, n: string, q: Path)
    requires Under(d + [n], q) && Apart(p, d)
    ensures p < Origin(p, d, q) && Origin(p, d, q)[|p|] == n && !Under(d, Origin(p, d, q))
  {
    OriginOfChild(p, d, n, q);
    ApartBelow(p, d, q);
    assert q[|d|..][0] == n;
  }

  /** What a partial walk leaves for the next child. */
  lemma NextToWalk(t: Tree, u: Tree, p: Path, d: Path, done: set<string>, n: string)
    requires WellFormed(t) && WellFormed(u) && IsDir(t, p) && Apart(p, d) && n !in done && p + [n] in t
    requires LaidOverPart(t, u, p, d, done)
    ensures At(u, p + [n]) == At(t, p + [n]) && IsDir(u, d) && Apart(p + [n], d + [n])
    ensures Subtree(u, p + [n]) < Subtree(t, p)
    ensures NoClash(t, p, d) ==> NoClash(u, p + [n], d + [n])
  {
    var s, e := p + [n], d + [n];
    ApartChildren(p, d, n);
    ApartBelow(p, d, s);
    assert At(u, s) == LaidPart(t, p, d, done, s);
    assert At(u, d) == Some(Dir);
    forall q | q in Subtree(u, s) ensures q in Subtree(t, p) {
      ApartBelow(p, d, q);
      assert q[..|p| + 1] == s && q[|p|] == n;
      assert At(u, q) == LaidPart(t, p, d, done, q);
    }
    assert p in Subtree(t, p) && p !in Subtree(u, s);
    if NoClash(t, p, d) {
      forall q | Under(e, q) && q in u && Origin(s, e, q) in u
        ensures u[q].Dir? <==> u[Origin(s, e, q)].Dir?
      {
        SameForChild(t, u, p, d, done, n, q);
      }
    }
  }

  /** Below the next child, source and destination are still as before the walk. */
  lemma SameForChild(t: Tree, u: Tree, p: Path, d: Path, done: set<string>, n: string, q: Path)
    requires Apart(p, d) && n !in done && LaidOverPart(t, u, p, d, done) && Under(d + [n], q)
    ensures At(u, q) == At(t, q) && Under(d, q)
    ensures At(u, Origin(p + [n], d + [n], q)) == At(t, Origin(p, d, q))
    ensures Origin(p + [n], d + [n], q) == Origin(p, d, q)
  {
    OriginOfChild(p, d, n, q);
    ChildOrigin(p, d, n, q);
    ApartBelow(p, d, q);
    assert At(u, q) == LaidPart(t, p, d, done, q);
    assert At(u, Origin(p, d, q)) == LaidPart(t, p, d, done, Origin(p, d, q));
  }

  /** A clash below a child is a clash. */
  lemma ChildrenDoNotClash(t: Tree, p: Path, d: Path)
    requires WellFormed(t) && IsDir(t, p) && (d in t ==> t[d].Dir?)
    requires forall n :: n in Names(t, p) ==> NoClash(t, p + [n], d + [n])
    ensures NoClash(t, p, d)
  {
    forall q | Under(d, q) && q in t && Origin(p, d, q) in t ensures t[q].Dir? <==> t[Origin(p, d, q)].Dir? {
      var o := Origin(p, d, q);
      if q == d {
        assert o == p;
      } else {
        ThroughChild(t, p, o);
        var n := q[|d|];
        assert o[|p|] == n;
        assert q[..|d| + 1] == d + [n];
        OriginOfChild(p, d, n, q);
      }
    }
  }

  lemma ClashBack(t: Tree, u: Tree, p: Path, d: Path, done: set<string>, n: string)
    requires Apart(p, d) && n !in done && LaidOverPart(t, u, p, d, done) && NoClash(u, p + [n], d + [n])
    ensures NoClash(t, p + [n], d + [n])
  {
    forall q | Under(d + [n], q) && q in t && Origin(p + [n], d + [n], q) in t
      ensures t[q].Dir? <==> t[Origin(p + [n], d + [n], q)].Dir?
    {
      SameForChild(t, u, p, d, done, n, q);
    }
  }

  // ---------- The walk ----------

  /** Every name at or below `p` is one a directory can list. */
  ghost predicate ValidBelow(t: Tree, p: Path) {
    forall q :: q in Subtree(t, p) ==> ValidPath(q)
  }

  /** `p` lies at or below the service directory `prefix/svc`, and `d` is the same place below `dest`. */
  ghost predicate Walkable(p: Path, svc: string, dest: Path, d: Path, prefix: Path) {
    && ValidName(svc) && WellPlaced(prefix, svc) && ValidPath(p) && ValidPath(dest) && dest != []
    && Under(prefix + [svc], p) && d == dest + p[|prefix| + 1..] && Apart(p, d)
  }

  lemma WalkableChild(p: Path, svc: string, dest: Path, d: Path, prefix: Path, n: string)
    requires Walkable(p, svc, dest, d, prefix) && ValidName(n)
    ensures Walkable(p + [n], svc, dest, d + [n], prefix)
  {
    assert (p + [n])[|prefix| + 1..] == p[|prefix| + 1..] + [n];
    assert dest + (p[|prefix| + 1..] + [n]) == d + [n];
    ApartChildren(p, d, n);
  }

  /** The name the program computes for a walked path is the one it should have. */
  lemma DestinationOfWalked(p: Path, svc: string, dest: Path, d: Path, prefix: Path)
    requires Walkable(p, svc, dest, d, prefix)
    ensures Destination(p, svc, dest) == Some(d)
  {
    var rel := p[|prefix| + 1..];
    assert p == prefix + [svc] + rel;
    DestinationIsRelative(prefix, svc, rel, dest);
  }

  /** Nothing changes outside the two trees. */
  ghost predicate OthersSame(t: Tree, t': Tree, p: Path, d: Path) {
    forall q :: !Under(p, q) && !Under(d, q) ==> At(t', q) == At(t, q)
  }

  lemma OthersSameStep(t: Tree, u: Tree, u': Tree, p: Path, d: Path, n: string)
    requires OthersSame(t, u, p, d) && OthersSame(u, u', p + [n], d + [n])
    ensures OthersSame(t, u', p, d)
  {
    forall q | !Under(p, q) && !Under(d, q) ensures At(u', q) == At(t, q) {
      assert Under(p + [n], q) ==> Under(p, q);
      assert Under(d + [n], q) ==> Under(d, q);
      assert At(u', q) == At(u, q);
    }
  }

  /** A file or link takes the place of what is at `d`. */
  lemma LaidEntry(t: Tree, p: Path, d: Path)
    requires WellFormed(t) && p in t && !t[p].Dir? && Apart(p, d) && CanReplace(t, d)
    ensures LaidOver(t, Renamed(t, p, d), p, d) && NoClash(t, p, d)
  {
    var u := Renamed(t, p, d);
    assert Origin(p, d, d) == p;
    forall q ensures At(u, q) == Laid(t, p, d, q) {
      ApartBelow(p, d, q);
      assert Under(d, q) <==> d == q || d < q;
      assert Under(p, q) <==> p == q || p < q;
      if d < q && Origin(p, d, q) in t { PrefixIsDir(t, p, Origin(p, d, q)); }
      if p < q && q in t { PrefixIsDir(t, p, q); }
    }
    forall q | Under(d, q) && q in t && Origin(p, d, q) in t ensures t[q].Dir? <==> t[Origin(p, d, q)].Dir? {
      if q != d { PrefixIsDir(t, p, Origin(p, d, q)); }
    }
  }

  lemma LaidOthersSame(t: Tree, t': Tree, p: Path, d: Path, done: set<string>)
    requires LaidOverPart(t, t', p, d, done)
    ensures OthersSame(t, t', p, d)
  {}

  lemma EntryClash(t: Tree, p: Path, d: Path)
    requires p in t && NoClash(t, p, d)
    ensures d in t ==> (t[d].Dir? <==> t[p].Dir?)
  {
    assert Under(d, d) && Origin(p, d, d) == p;
  }

  lemma PassableParent(t: Tree, d: Path)
    requires WellFormed(t) && d != [] && IsDir(t, d[..|d| - 1])
    ensures Passable(t, d) <==> (d in t ==> t[d].Dir?)
  {
    if d in t {
      assert Under(d, d);
      if t[d].Dir? {
        forall q | Under(q, d) && q in t ensures t[q].Dir? {
          if q != d { PrefixIsDir(t, q, d); }
        }
      }
    } else {
      PassableChild(t, d);
    }
  }

  /** `afero.Walk` with the function of `moveFiles`, from the walked path `p` down. */
  method Walk(fs: FileSystem, p: Path, svc: string, dest: Path, ghost d: Path, ghost prefix: Path) returns (ok: bool)
    requires WellFormed(fs.tree) && p in fs.tree && ValidBelow(fs.tree, p)
    requires Walkable(p, svc, dest, d, prefix) && IsDir(fs.tree, d[..|d| - 1])
    modifies fs
    ensures WellFormed(fs.tree) && OthersSame(old(fs.tree), fs.tree, p, d)
    ensures ok ==> LaidOver(old(fs.tree), fs.tree, p, d) && NoClash(old(fs.tree), p, d)
    ensures fs.reliable && NoClash(old(fs.tree), p, d) ==> ok
    decreases Subtree(fs.tree, p)
  {
    ghost var t := fs.tree;
    DestinationOfWalked(p, svc, dest, d, prefix);
    var target := Destination(p, svc, dest);
    if target == None {
      return false;
    }
    if NoClash(t, p, d) { EntryClash(t, p, d); }
    if !fs.tree[p].Dir? {
      if CanReplace(t, d) { LaidEntry(t, p, d); }
      ok := fs.Rename(p, target.value);
      return;
    }
    PassableParent(t, d);
    ok := fs.MkdirAll(target.value);
    if !ok {
      return;
    }
    LaidStart(t, p, d);
    ok := WalkChildren(fs, p, svc, dest, d, prefix, t);
  }

  /** The walk below a directory whose copy has just been made. */
  method WalkChildren(fs: FileSystem, p: Path, svc: string, dest: Path, ghost d: Path, ghost prefix: Path,
                      ghost t: Tree)
    returns (ok: bool)
    requires WellFormed(t) && IsDir(t, p) && ValidBelow(t, p) && Walkable(p, svc, dest, d, prefix)
    requires WellFormed(fs.tree) && LaidOverPart(t, fs.tree, p, d, {}) && (d in t ==> t[d].Dir?)
    modifies fs
    ensures WellFormed(fs.tree) && OthersSame(t, fs.tree, p, d)
    ensures ok ==> LaidOver(t, fs.tree, p, d) && NoClash(t, p, d)
    ensures fs.reliable && NoClash(t, p, d) ==> ok
    decreases Subtree(t, p), 1
  {
    LaidOthersSame(t, fs.tree, p, d, {});
    SameListing(t, fs.tree, p, d);
    var names := fs.ReadDir(p);
    if names.None? {
      return false;
    }
    ok := true;
    for i := 0 to |names.value|
      invariant ok && WellFormed(fs.tree)
      invariant LaidOverPart(t, fs.tree, p, d, ToSet(names.value[..i]))
      invariant forall n :: n in ToSet(names.value[..i]) ==> NoClash(t, p + [n], d + [n])
    {
      NextName(names.value, i);
      ok := WalkChild(fs, p, names.value[i], svc, dest, d, prefix, t, ToSet(names.value[..i]));
      if !ok {
        return;
      }
    }
    assert names.value[..|names.value|] == names.value;
    LaidOthersSame(t, fs.tree, p, d, Names(t, p));
    LaidAll(t, fs.tree, p, d);
    ChildrenDoNotClash(t, p, d);
  }

  lemma SameListing(t: Tree, u: Tree, p: Path, d: Path)
    requires IsDir(t, p) && Apart(p, d) && LaidOverPart(t, u, p, d, {})
    ensures IsDir(u, p) && Names(u, p) == Names(t, p)
  {
    ApartBelow(p, d, p);
    assert At(u, p) == LaidPart(t, p, d, {}, p);
    forall n ensures n in Names(u, p) <==> n in Names(t, p) {
      ApartBelow(p, d, p + [n]);
      assert At(u, p + [n]) == LaidPart(t, p, d, {}, p + [n]);
      NameOf(t, p, n);
      NameOf(u, p, n);
    }
  }

  method WalkChild(fs: FileSystem, p: Path, n: string, svc: string, dest: Path, ghost d: Path, ghost prefix: Path,
                   ghost t: Tree, ghost done: set<string>)
    returns (ok: bool)
    requires WellFormed(t) && IsDir(t, p) && ValidBelow(t, p) && Walkable(p, svc, dest, d, prefix)
    requires WellFormed(fs.tree) && LaidOverPart(t, fs.tree, p, d, done) && n in Names(t, p) && n !in done
    modifies fs
    ensures WellFormed(fs.tree) && OthersSame(t, fs.tree, p, d)
    ensures ok ==> LaidOverPart(t, fs.tree, p, d, done + {n}) && NoClash(t, p + [n], d + [n])
    ensures fs.reliable && NoClash(t, p, d) ==> ok
    decreases Subtree(t, p), 0
  {
    ghost var u := fs.tree;
    NameOf(t, p, n);
    assert p + [n] in Subtree(t, p) && ValidPath(p + [n]) && (p + [n])[|p|] == n;
    NextToWalk(t, u, p, d, done, n);
    WalkableChild(p, svc, dest, d, prefix, n);
    LaidOthersSame(t, u, p, d, done);
    assert (d + [n])[..|d + [n]| - 1] == d;
    ok := Walk(fs, p + [n], svc, dest, d + [n], prefix);
    OthersSameStep(t, u, fs.tree, p, d, n);
    if ok {
      LaidStep(t, u, fs.tree, p, d, done, n);
      ClashBack(t, u, p, d, done, n);
    }
  }
}
