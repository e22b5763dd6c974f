/**
 A file system as a flat map from paths to entries, and the operations the operators use on it.

 A symbolic link leads to no directory; the trees below contain none that does.
 */
module FileTree {
  import opened Faults
  import opened Wrappers

  type Path = seq<string>

  datatype Entry = Dir | File(content: string) | Symlink(target: string)

  type Tree = map<Path, Entry>

  function At(t: Tree, p: Path): Option<Entry> {
    if p in t then Some(t[p]) else None
  }

  predicate IsDir(t: Tree, p: Path) {
    p in t && t[p].Dir?
  }

  /** Every entry but the root lies in a directory. */
  ghost predicate WellFormed(t: Tree) {
    && IsDir(t, [])
    && forall p :: p in t && p != [] ==> IsDir(t, p[..|p| - 1])
  }

  lemma Comparable(a: Path, b: Path, p: Path)
    requires Under(a, p) && Under(b, p)
    ensures Under(a, b) || Under(b, a)
  {
    assert a == p[..|a|] && b == p[..|b|];
  }

  lemma UnderTrans(a: Path, b: Path, c: Path)
    requires Under(a, b) && Under(b, c)
    ensures Under(a, c)
  {}

  lemma {:induction false} PrefixIsDir(t: Tree, q: Path, p: Path)
    requires WellFormed(t) && p in t && q < p
    ensures IsDir(t, q)
    decreases |p|
  {
    var parent := p[..|p| - 1];
    if q != parent {
      PrefixIsDir(t, q, parent);
    }
  }

  /** `q` is `root` or lies below it. */
  predicate Under(root: Path, q: Path) {
    root <= q
  }

  /** No entry on the way to `p`, or at `p`, is something other than a directory. */
  ghost predicate Passable(t: Tree, p: Path) {
    forall q :: Under(q, p) && q in t ==> t[q].Dir?
  }

  /** No path above `p` is a file. */
  predicate NoFileAbove(t: Tree, p: Path) {
    forall i :: 0 <= i < |p| && p[..i] in t ==> !t[p[..i]].File?
  }

  lemma NoFileAboveStep(t: Tree, p: Path, n: string)
    ensures NoFileAbove(t, p + [n]) <==> NoFileAbove(t, p) && (p in t ==> !t[p].File?)
  {
    assert forall i :: 0 <= i <= |p| ==> (p + [n])[..i] == p[..i];
    assert p[..|p|] == p;
    if NoFileAbove(t, p + [n]) { assert (p + [n])[..|p|] in t ==> !t[(p + [n])[..|p|]].File?; }
  }

  /** Below a directory no file is in the way of its children. */
  lemma NoFileAboveChild(t: Tree, d: Path, n: string)
    requires WellFormed(t) && IsDir(t, d)
    ensures NoFileAbove(t, d + [n])
  {
    forall i | 0 <= i < |d + [n]| && (d + [n])[..i] in t ensures !t[(d + [n])[..i]].File? {
      var q := (d + [n])[..i];
      assert Under(q, d);
      if q != d { PrefixIsDir(t, q, d); }
    }
  }

  /** The entries at and below a path; they are what a recursive copy walks. */
  ghost function Subtree(t: Tree, p: Path): set<Path> {
    set q | q in t && Under(p, q)
  }

  /** Outside the subtree at `p`, `t'` is `t` with at most missing ancestors of `p` added as directories. */
  ghost predicate SameOutside(t: Tree, t': Tree, p: Path) {
    forall q :: !Under(p, q) ==> At(t', q) == At(t, q) || (Under(q, p) && q !in t && At(t', q) == Some(Dir))
  }

  ghost predicate RemovedAt(t: Tree, t': Tree, p: Path) {
    forall q :: At(t', q) == if Under(p, q) then None else At(t, q)
  }

  // ---------- Making directories and files ----------

  function WithDirs(t: Tree, p: Path): Tree {
    t + map q | q in Missing(t, p) :: Dir
  }

  function Missing(t: Tree, p: Path): set<Path> {
    set i | 0 <= i <= |p| && p[..i] !in t :: p[..i]
  }

  lemma WithDirsAt(t: Tree, p: Path)
    ensures forall q :: At(WithDirs(t, p), q) == if Under(q, p) && q !in t then Some(Dir) else At(t, q)
  {
    forall q ensures At(WithDirs(t, p), q) == if Under(q, p) && q !in t then Some(Dir) else At(t, q) {
      if Under(q, p) { assert q == p[..|q|]; }
    }
  }

  lemma WithDirsWellFormed(t: Tree, p: Path)
    requires WellFormed(t) && Passable(t, p)
    ensures WellFormed(WithDirs(t, p))
  {
    WithDirsAt(t, p);
    var u := WithDirs(t, p);
    assert At(u, []).Some?;
    forall q | q in u && q != [] ensures IsDir(u, q[..|q| - 1]) {
      assert At(u, q).Some?;
      var r := q[..|q| - 1];
      if q !in t {
        assert Under(q, p) && Under(r, p);
        assert At(u, r).Some?;
      } else {
        assert At(u, r) == At(t, r);
      }
    }
  }

  predicate Writable(t: Tree, p: Path) {
    p != [] && IsDir(t, p[..|p| - 1]) && (p in t ==> t[p].File?)
  }

  lemma WriteWellFormed(t: Tree, p: Path, content: string)
    requires WellFormed(t) && Writable(t, p)
    ensures WellFormed(t[p := File(content)])
  {
    var u := t[p := File(content)];
    forall q | q in u && q != [] ensures IsDir(u, q[..|q| - 1]) {
      assert q in t ==> IsDir(t, q[..|q| - 1]);
    }
  }

  lemma RemoveWellFormed(t: Tree, p: Path, u: Tree)
    requires WellFormed(t) && p != [] && u == map q | q in t && !Under(p, q) :: t[q]
    ensures WellFormed(u)
  {
    forall q | q in u && q != [] ensures IsDir(u, q[..|q| - 1]) {
      var r := q[..|q| - 1];
      assert Under(p, r) ==> Under(p, q);
    }
  }

  predicate CanReplace(t: Tree, q: Path) {
    q != [] && IsDir(t, q[..|q| - 1]) && (q in t ==> !t[q].Dir?)
  }

  function Renamed(t: Tree, p: Path, q: Path): Tree
    requires p in t
  {
    (t - {p})[q := t[p]]
  }

  lemma RenamedWellFormed(t: Tree, p: Path, q: Path)
    requires WellFormed(t) && p in t && !t[p].Dir? && p != q && CanReplace(t, q)
    ensures WellFormed(Renamed(t, p, q))
  {
    var u := Renamed(t, p, q);
    RenamedKeepsDir(t, p, q, []);
    forall r | r in u && r != [] ensures IsDir(u, r[..|r| - 1]) {
      var d := r[..|r| - 1];
      if r != q { assert r in t; }
      RenamedKeepsDir(t, p, q, d);
    }
  }

  lemma RenamedKeepsDir(t: Tree, p: Path, q: Path, d: Path)
    requires IsDir(t, d) && p in t && !t[p].Dir? && (q in t ==> !t[q].Dir?)
    ensures IsDir(Renamed(t, p, q), d)
  {}

  // ---------- Copying a tree ----------

  function NoLink(e: Option<Entry>): Option<Entry> {
    if e.Some? && e.value.Symlink? then None else e
  }

  /** The path in the source tree that corresponds to a path in the copy. */
  function Origin(src: Path, dst: Path, q: Path): Path
    requires Under(dst, q)
  {
    src + q[|dst|..]
  }

  /** A directory on the way to a new path. */
  function OnTheWay(t: Tree, q: Path): Option<Entry> {
    if q in t then Some(t[q]) else Some(Dir)
  }

  /**
   The entry at `q` once the children in `done` are copied: their subtrees without symbolic links, and the
   directories on the way to `dst`.
   */
  ghost function PartCopy(t: Tree, src: Path, dst: Path, done: set<string>, q: Path): Option<Entry> {
    if dst < q then (if q[|dst|] in done then NoLink(At(t, Origin(src, dst, q))) else None)
    else if Under(q, dst) then OnTheWay(t, q)
    else At(t, q)
  }

  ghost function FullCopy(t: Tree, src: Path, dst: Path, q: Path): Option<Entry> {
    if Under(dst, q) then NoLink(At(t, Origin(src, dst, q)))
    else if Under(q, dst) then OnTheWay(t, q)
    else At(t, q)
  }

  ghost predicate CopiedPart(t: Tree, t': Tree, src: Path, dst: Path, done: set<string>) {
    forall q :: At(t', q) == PartCopy(t, src, dst, done, q)
  }

  /** `t'` is `t` with the tree at `src`, without its symbolic links, copied to `dst`. */
  ghost predicate Copied(t: Tree, t': Tree, src: Path, dst: Path) {
    forall q :: At(t', q) == FullCopy(t, src, dst, q)
  }

  ghost function Names(t: Tree, d: Path): set<string> {
    set q | q in t && |q| == |d| + 1 && d < q :: q[|d|]
  }

  function ToSet(names: seq<string>): set<string> {
    set n | n in names
  }

  predicate NoDuplicates(names: seq<string>) {
    forall i, j :: 0 <= i < j < |names| ==> names[i] != names[j]
  }

  lemma NextName(names: seq<string>, i: nat)
    requires NoDuplicates(names) && i < |names|
    ensures names[i] in ToSet(names) && names[i] !in ToSet(names[..i])
    ensures ToSet(names[..i + 1]) == ToSet(names[..i]) + {names[i]}
  {
    assert names[..i + 1] == names[..i] + [names[i]];
  }

  lemma NameOf(t: Tree, d: Path, n: string)
    ensures n in Names(t, d) <==> d + [n] in t
  {
    assert (d + [n])[|d|] == n;
    forall q | q in t && |q| == |d| + 1 && d < q && q[|d|] == n ensures q == d + [n] {}
  }

  /** A path below `d` goes through one of the children of `d`. */
  lemma ThroughChild(t: Tree, d: Path, q: Path)
    requires WellFormed(t) && d < q
    ensures q in t ==> q[|d|] in Names(t, d)
  {
    if q in t {
      var c := d + [q[|d|]];
      assert c <= q;
      if c != q { PrefixIsDir(t, c, q); }
      NameOf(t, d, q[|d|]);
    }
  }

  lemma CopiedAll(t: Tree, t': Tree, src: Path, dst: Path)
    requires WellFormed(t) && IsDir(t, src) && dst !in t
    requires CopiedPart(t, t', src, dst, Names(t, src))
    ensures Copied(t, t', src, dst)
  {
    forall q ensures PartCopy(t, src, dst, Names(t, src), q) == FullCopy(t, src, dst, q) {
      if dst < q {
        ThroughChild(t, src, Origin(src, dst, q));
      } else if q == dst {
        assert Origin(src, dst, q) == src;
      }
    }
  }

  /** Nothing below the source lies below a fresh destination. */
  lemma SourceApart(t: Tree, src: Path, dst: Path, q: Path)
    requires WellFormed(t) && src in t && dst !in t && !Under(src, dst) && Under(src, q)
    ensures !Under(dst, q) && !Under(q, dst)
  {
    if |dst| < |src| && Under(dst, q) {
      assert dst == q[..|dst|] == src[..|dst|];
      PrefixIsDir(t, dst, src);
    }
  }

  lemma CopyStarts(t: Tree, src: Path, dst: Path)
    requires WellFormed(t) && dst !in t
    ensures CopiedPart(t, WithDirs(t, dst), src, dst, {})
  {
    WithDirsAt(t, dst);
    forall q ensures At(WithDirs(t, dst), q) == PartCopy(t, src, dst, {}, q) {
      if dst < q && q in t { PrefixIsDir(t, dst, q); }
    }
  }

  /** `d` now holds the copy of `s`, and nothing else has changed. */
  ghost predicate ChildCopied(u: Tree, u': Tree, s: Path, d: Path) {
    forall q :: At(u', q) == if Under(d, q) then NoLink(At(u, Origin(s, d, q))) else At(u, q)
  }

  lemma ChildTreeCopied(u: Tree, u': Tree, s: Path, d: Path)
    requires WellFormed(u) && d != [] && IsDir(u, d[..|d| - 1]) && Copied(u, u', s, d)
    ensures ChildCopied(u, u', s, d)
  {
    forall q | Under(q, d) && q != d ensures q in u {
      var parent := d[..|d| - 1];
      assert Under(q, parent);
      if q != parent { PrefixIsDir(u, q, parent); }
    }
  }

  /** A child that is no directory is a single entry. */
  lemma ChildEntryCopied(u: Tree, u': Tree, s: Path, d: Path)
    requires WellFormed(u) && s in u && !u[s].Dir? && d !in u
    requires At(u', d) == NoLink(At(u, s)) && forall q :: q != d ==> At(u', q) == At(u, q)
    ensures ChildCopied(u, u', s, d)
  {
    assert Origin(s, d, d) == s;
    forall q | Under(d, q) && q != d ensures At(u, q) == None && At(u, Origin(s, d, q)) == None {
      if q in u { PrefixIsDir(u, d, q); }
      if Origin(s, d, q) in u { PrefixIsDir(u, s, Origin(s, d, q)); }
    }
  }

  lemma ThroughName(d: Path, n: string, q: Path)
    ensures d < q && !Under(d + [n], q) ==> q[|d|] != n
  {
    if d < q && q[|d|] == n {
      assert q[..|d| + 1] == d + [n];
    }
  }

  lemma UnderParent(q: Path, d: Path)
    requires Under(q, d) && q != d
    ensures Under(q, d[..|d| - 1])
  {}

  lemma PassableChild(u: Tree, d: Path)
    requires WellFormed(u) && d != [] && d !in u && IsDir(u, d[..|d| - 1])
    ensures Passable(u, d)
  {
    var parent := d[..|d| - 1];
    forall q | Under(q, d) && q in u ensures u[q].Dir? {
      UnderParent(q, d);
      if q != parent { PrefixIsDir(u, q, parent); }
    }
  }

  /** What a partial copy leaves for the next child. */
  lemma NextChild(t: Tree, u: Tree, src: Path, dst: Path, done: set<string>, n: string)
    requires WellFormed(t) && IsDir(t, src) && dst !in t && Passable(t, dst) && !Under(src, dst)
    requires WellFormed(u) && CopiedPart(t, u, src, dst, done) && src + [n] in t && n !in done
    ensures At(u, src + [n]) == At(t, src + [n]) && dst + [n] !in u && !Under(src + [n], dst + [n])
    ensures Writable(u, dst + [n]) && Passable(u, dst + [n])
    ensures Subtree(u, src + [n]) < Subtree(t, src)
  {
    var s, d := src + [n], dst + [n];
    SourceApart(t, src, dst, s);
    assert At(u, d) == None && At(u, dst) == Some(Dir) && d[..|d| - 1] == dst;
    assert Under(s, d) ==> Under(src, dst);
    PassableChild(u, d);
    forall q | q in Subtree(u, s) ensures q in Subtree(t, src) {
      SourceApart(t, src, dst, q);
      assert At(u, q) == At(t, q);
    }
    assert src in Subtree(t, src) && src !in Subtree(u, s);
  }

  lemma SameBesidesChild(u: Tree, u': Tree, dst: Path, n: string)
    requires WellFormed(u) && IsDir(u, dst) && SameOutside(u, u', dst + [n])
    ensures forall q :: !Under(dst, q) ==> At(u', q) == At(u, q)
  {
    forall q | !Under(dst, q) ensures At(u', q) == At(u, q) {
      assert !Under(dst + [n], q);
      if Under(q, dst + [n]) { PrefixIsDir(u, q, dst); }
    }
  }

  lemma SameNames(t: Tree, u: Tree, src: Path, dst: Path)
    requires WellFormed(t) && IsDir(t, src) && dst !in t && !Under(src, dst) && CopiedPart(t, u, src, dst, {})
    ensures IsDir(u, src) && Names(u, src) == Names(t, src)
  {
    SourceApart(t, src, dst, src);
    assert At(u, src) == At(t, src);
    forall n ensures n in Names(u, src) <==> n in Names(t, src) {
      SourceApart(t, src, dst, src + [n]);
      assert At(u, src + [n]) == At(t, src + [n]);
      NameOf(t, src, n);
      NameOf(u, src, n);
    }
  }

  lemma PartSameOutside(t: Tree, u: Tree, u': Tree, src: Path, dst: Path, done: set<string>)
    requires CopiedPart(t, u, src, dst, done) && forall q :: !Under(dst, q) ==> At(u', q) == At(u, q)
    ensures SameOutside(t, u', dst)
  {}

  /** One more child: its copy extends the part already copied. */
  lemma CopiedPartStep(t: Tree, u: Tree, u': Tree, src: Path, dst: Path, done: set<string>, n: string)
    requires WellFormed(t) && src in t && dst !in t && !Under(src, dst) && n !in done
    requires CopiedPart(t, u, src, dst, done)
    requires ChildCopied(u, u', src + [n], dst + [n])
    ensures CopiedPart(t, u', src, dst, done + {n})
  {
    forall q ensures At(u', q) == PartCopy(t, src, dst, done + {n}, q) {
      assert At(u, q) == PartCopy(t, src, dst, done, q);
      if Under(dst + [n], q) {
        OriginOfChild(src, dst, n, q);
        var o := Origin(src, dst, q);
        SourceApart(t, src, dst, o);
        assert At(u, o) == PartCopy(t, src, dst, done, o);
      } else {
        ThroughName(dst, n, q);
      }
    }
  }

  lemma OriginOfChild(src: Path, dst: Path, n: string, q: Path)
    requires Under(dst + [n], q)
    ensures dst < q && q[|dst|] == n
    ensures Origin(src + [n], dst + [n], q) == Origin(src, dst, q) && Under(src, Origin(src, dst, q))
  {
    assert q[..|dst| + 1] == dst + [n];
  }

  datatype CopyError = SourceMissing | SourceNotDirectory | DestinationExists | IoError

  /** The file system of one process; `reliable` says that no operation fails without a cause in the tree. */
  class FileSystem {
    var tree: Tree
    const reliable: bool

    constructor (tree: Tree, reliable: bool)
      ensures this.tree == tree && this.reliable == reliable
    {
      this.tree := tree;
      this.reliable := reliable;
    }

    /** A missing path is fine; a file on the way to it is "not a directory". */
    method RemoveAll(p: Path) returns (ok: bool)
      requires WellFormed(tree) && p != []
      modifies this
      ensures WellFormed(tree)
      ensures ok ==> RemovedAt(old(tree), tree, p)
      ensures forall q :: !Under(p, q) ==> At(tree, q) == At(old(tree), q)
      ensures ok ==> NoFileAbove(old(tree), p)
      ensures reliable ==> (ok <==> NoFileAbove(old(tree), p))
    {
      var fault := Fault(reliable);
      ok := !fault && NoFileAbove(tree, p);
      if ok {
        ghost var t := tree;
        tree := map q | q in tree && !Under(p, q) :: tree[q];
        RemoveWellFormed(t, p, tree);
      }
    }

    method MkdirAll(p: Path) returns (ok: bool)
      requires WellFormed(tree)
      modifies this
      ensures WellFormed(tree)
      ensures ok ==> tree == WithDirs(old(tree), p) && Passable(old(tree), p)
      ensures !ok ==> tree == old(tree)
      ensures reliable ==> (ok <==> Passable(old(tree), p))
    {
      var fault := Fault(reliable);
      ok := !fault && forall i :: 0 <= i <= |p| && p[..i] in tree ==> tree[p[..i]].Dir?;
      assert forall q :: Under(q, p) ==> q == p[..|q|];
      if ok {
        WithDirsWellFormed(tree, p);
        tree := WithDirs(tree, p);
      }
    }

    /** Whether `Stat` succeeds. */
    method Stat(p: Path) returns (found: bool)
      ensures found ==> p in tree && !tree[p].Symlink?
      ensures reliable && p in tree && !tree[p].Symlink? ==> found
    {
      var fault := Fault(reliable);
      found := !fault && p in tree && !tree[p].Symlink?;
    }

    method Read(p: Path) returns (content: Option<string>)
      ensures content.Some? ==> At(tree, p) == Some(File(content.value))
      ensures reliable && p in tree && tree[p].File? ==> content.Some?
    {
      var fault := Fault(reliable);
      content := if !fault && p in tree && tree[p].File? then Some(tree[p].content) else None;
    }

    /** Creates or truncates a file and writes it; a failure may leave any content in it. */
    method WriteFile(p: Path, content: string) returns (ok: bool)
      requires WellFormed(tree)
      modifies this
      ensures WellFormed(tree)
      ensures forall q :: q != p ==> At(tree, q) == At(old(tree), q)
      ensures ok ==> Writable(old(tree), p) && tree == old(tree)[p := File(content)]
      ensures !Writable(old(tree), p) ==> tree == old(tree)
      ensures At(tree, p) == At(old(tree), p) || (p in tree && tree[p].File?)
      ensures reliable ==> (ok <==> Writable(old(tree), p))
    {
      var fault := Fault(reliable);
      ok := !fault && Writable(tree, p);
      if ok {
        WriteWellFormed(tree, p, content);
        tree := tree[p := File(content)];
      }
    }

    /** Renames a file or a link; an existing file at the new name is replaced, a directory is not. */
    method Rename(p: Path, q: Path) returns (ok: bool)
      requires WellFormed(tree) && p in tree && !tree[p].Dir? && p != q
      modifies this
      ensures WellFormed(tree)
      ensures ok ==> CanReplace(old(tree), q) && tree == Renamed(old(tree), p, q)
      ensures !ok ==> tree == old(tree)
      ensures reliable ==> (ok <==> CanReplace(old(tree), q))
    {
      var fault := Fault(reliable);
      ok := !fault && CanReplace(tree, q);
      if ok {
        RenamedWellFormed(tree, p, q);
        tree := Renamed(tree, p, q);
      }
    }

    /** The names in a directory, each once; Go sorts them, the model leaves the order open. */
    method ReadDir(p: Path) returns (names: Option<seq<string>>)
      requires WellFormed(tree)
      ensures names.Some? ==> IsDir(tree, p) && ToSet(names.value) == Names(tree, p) && NoDuplicates(names.value)
      ensures reliable && IsDir(tree, p) ==> names.Some?
    {
      var fault := Fault(reliable);
      if fault || !IsDir(tree, p) {
        return None;
      }
      var todo := set q | q in tree && |q| == |p| + 1 && p < q :: q[|p|];
      var s: seq<string> := [];
      while todo != {}
        invariant todo !! ToSet(s) && todo + ToSet(s) == Names(tree, p) && NoDuplicates(s)
        decreases todo
      {
        var n :| n in todo;
        assert n !in ToSet(s);
        var r := s + [n];
        assert forall m :: m in r <==> m in s || m == n;
        todo, s := todo - {n}, r;
      }
      return Some(s);
    }

    /** `CopyFile`: open, create, copy, sync and mode; the last two leave the tree alone. */
    method CopyFile(src: Path, dst: Path) returns (ok: bool)
      requires WellFormed(tree) && src != dst
      modifies this
      ensures WellFormed(tree)
      ensures forall q :: q != dst ==> At(tree, q) == At(old(tree), q)
      ensures ok ==> src in old(tree) && old(tree)[src].File? && At(tree, dst) == At(old(tree), src)
      ensures reliable && src in old(tree) && old(tree)[src].File? && Writable(old(tree), dst) ==> ok
      ensures At(tree, dst) == At(old(tree), dst) || (dst in tree && tree[dst].File?)
    {
      var content := Read(src);
      if content.None? {
        return false;
      }
      ok := WriteFile(dst, content.value);
      if ok {
        var fault := Fault(reliable);
        ok := !fault;
      }
    }

    /** `CopyDir`: the source must be a directory and the destination must not exist; symbolic links are skipped. */
    method CopyDir(src: Path, dst: Path) returns (e: Option<CopyError>)
      requires WellFormed(tree) && !Under(src, dst)
      modifies this
      ensures WellFormed(tree)
      ensures e == None ==> IsDir(old(tree), src) && dst !in old(tree) && Copied(old(tree), tree, src, dst)
      ensures SameOutside(old(tree), tree, dst)
      ensures e == Some(SourceMissing) <==> src !in old(tree) || old(tree)[src].Symlink?
      ensures e == Some(SourceNotDirectory) <==> src in old(tree) && old(tree)[src].File?
      ensures e == Some(DestinationExists) <==> IsDir(old(tree), src) && dst in old(tree) && !old(tree)[dst].Symlink?
      ensures reliable ==> (e == None <==> IsDir(old(tree), src) && dst !in old(tree) && Passable(old(tree), dst))
      decreases Subtree(tree, src), 1
    {
      ghost var t := tree;
      if src !in tree || tree[src].Symlink? {
        return Some(SourceMissing);
      }
      if !tree[src].Dir? {
        return Some(SourceNotDirectory);
      }
      if dst in tree && !tree[dst].Symlink? {
        return Some(DestinationExists);
      }
      var made := MkdirAll(dst);
      if !made {
        return Some(IoError);
      }
      assert dst !in t;
      CopyStarts(t, src, dst);
      e := CopyChildren(src, dst, t);
    }

    /** A directory below the source, where nothing stands at the destination. */
    method CopyChildDir(src: Path, dst: Path) returns (e: Option<CopyError>)
      requires WellFormed(tree) && !Under(src, dst) && IsDir(tree, src) && dst !in tree
      modifies this
      ensures WellFormed(tree) && SameOutside(old(tree), tree, dst)
      ensures e == None ==> Copied(old(tree), tree, src, dst)
      ensures e == None || e == Some(IoError)
      ensures reliable ==> (e == None <==> Passable(old(tree), dst))
      decreases Subtree(tree, src), 2
    {
      e := CopyDir(src, dst);
      assert e.Some? ==>
        e.value.SourceMissing? || e.value.SourceNotDirectory? || e.value.DestinationExists? || e.value.IoError?;
    }

    /** The loop of `CopyDir` over the entries of the source. */
    method CopyChildren(src: Path, dst: Path, ghost t: Tree) returns (e: Option<CopyError>)
      requires WellFormed(t) && IsDir(t, src) && dst !in t && Passable(t, dst) && !Under(src, dst)
      requires WellFormed(tree) && CopiedPart(t, tree, src, dst, {})
      modifies this
      ensures WellFormed(tree) && SameOutside(t, tree, dst)
      ensures e == None ==> Copied(t, tree, src, dst)
      ensures e == None || e == Some(IoError)
      ensures reliable ==> e == None
      decreases Subtree(t, src), 0, 1
    {
      SameNames(t, tree, src, dst);
      var names := ReadDir(src);
      if names.None? {
        PartSameOutside(t, tree, tree, src, dst, {});
        return Some(IoError);
      }
      var i := 0;
      while i < |names.value|
        invariant 0 <= i <= |names.value|
        invariant WellFormed(tree) && CopiedPart(t, tree, src, dst, ToSet(names.value[..i]))
      {
        NextName(names.value, i);
        NameOf(t, src, names.value[i]);
        e := CopyChild(src, dst, names.value[i], t, ToSet(names.value[..i]));
        if e != None {
          return;
        }
        i := i + 1;
      }
      assert names.value[..i] == names.value;
      PartSameOutside(t, tree, tree, src, dst, Names(t, src));
      CopiedAll(t, tree, src, dst);
      return None;
    }

    method CopyChild(src: Path, dst: Path, n: string, ghost t: Tree, ghost done: set<string>)
      returns (e: Option<CopyError>)
      requires WellFormed(t) && IsDir(t, src) && dst !in t && Passable(t, dst) && !Under(src, dst)
      requires WellFormed(tree) && CopiedPart(t, tree, src, dst, done) && src + [n] in t && n !in done
      modifies this
      ensures WellFormed(tree) && SameOutside(t, tree, dst)
      ensures e == None ==> CopiedPart(t, tree, src, dst, done + {n})
      ensures e == None || e == Some(IoError)
      ensures reliable ==> e == None
      decreases Subtree(t, src), 0, 0
    {
      ghost var u := tree;
      var s, d := src + [n], dst + [n];
      NextChild(t, u, src, dst, done, n);
      if tree[s].Dir? {
        e := CopyChildDir(s, d);
        if e == None {
          ChildTreeCopied(u, tree, s, d);
        }
        SameBesidesChild(u, tree, dst, n);
      } else if tree[s].Symlink? {
        e := None;
        ChildEntryCopied(u, tree, s, d);
      } else {
        var ok := CopyFile(s, d);
        e := if ok then None else Some(IoError);
        if ok {
          ChildEntryCopied(u, tree, s, d);
        }
      }
      PartSameOutside(t, u, tree, src, dst, done);
      if e == None {
        CopiedPartStep(t, u, tree, src, dst, done, n);
      }
    }
  }
}
