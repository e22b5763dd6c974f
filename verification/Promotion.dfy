/**
 Promotion of a release to a stage: the service directory of the stage branch is replaced by the base files overlaid by
 the stage files, with merged Helm values and the version filled in
 (promotion-service/pkg/utils/githandler.go:78-278).
 */
module Promotion {
  import opened Wrappers
  import opened FileTree
  import opened ServicePath
  import opened Delivery
  import opened Overlay

  // ---------- moveFiles and performFileMove ----------

  /** The leaf at `q` after the files below `src` were moved over the tree at `dest`. */
  function MovedLeaf(t: Tree, src: Path, dest: Path, q: Path): Option<Entry> {
    if Under(dest, q) then
      var o := Origin(src, dest, q);
      if o in t then LeafAt(t, o) else LeafAt(t, q)
    else if Under(src, q) then None
    else LeafAt(t, q)
  }

  /** The entry at a path of the destination. */
  function Arrived(t: Tree, src: Path, dest: Path, q: Path): Option<Entry>
    requires Under(dest, q)
  {
    var o := Origin(src, dest, q);
    if q == dest then Some(Dir) else if o in t then Some(t[o]) else At(t, q)
  }

  ghost predicate Moved(t: Tree, t': Tree, src: Path, dest: Path) {
    && (forall q :: LeafAt(t', q) == MovedLeaf(t, src, dest, q))
    && (forall q :: Under(dest, q) ==> At(t', q) == Arrived(t, src, dest, q))
  }

  /** Making the source directory first creates only directories. */
  lemma MovedAfterMkdir(t: Tree, t': Tree, src: Path, dest: Path)
    requires WellFormed(t) && Apart(src, dest) && Passable(t, src)
    requires LaidOver(WithDirs(t, src), t', src, dest) && NoClash(WithDirs(t, src), src, dest)
    ensures Moved(t, t', src, dest) && IsDir(t', dest)
  {
    var u := WithDirs(t, src);
    WithDirsAt(t, src);
    assert At(u, src) == if src in t then Some(t[src]) else Some(Dir);
    assert Origin(src, dest, dest) == src && At(t', dest) == Laid(u, src, dest, dest);
    forall q
      ensures LeafAt(t', q) == MovedLeaf(t, src, dest, q)
      ensures Under(dest, q) ==> At(t', q) == Arrived(t, src, dest, q)
    {
      MovedAt(t, u, t', src, dest, q);
    }
  }

  lemma MovedAt(t: Tree, u: Tree, t': Tree, src: Path, dest: Path, q: Path)
    requires WellFormed(t) && Apart(src, dest) && Passable(t, src) && IsDir(u, src)
    requires forall r :: At(u, r) == if Under(r, src) && r !in t then Some(Dir) else At(t, r)
    requires LaidOver(u, t', src, dest) && NoClash(u, src, dest)
    ensures LeafAt(t', q) == MovedLeaf(t, src, dest, q)
    ensures Under(dest, q) ==> At(t', q) == Arrived(t, src, dest, q)
  {
    ApartBelow(src, dest, q);
    assert At(t', q) == Laid(u, src, dest, q);
    assert At(u, q) == if Under(q, src) && q !in t then Some(Dir) else At(t, q);
    if Under(dest, q) {
      var o := Origin(src, dest, q);
      assert At(u, o) == if Under(o, src) && o !in t then Some(Dir) else At(t, o);
      if Under(q, src) { UnderTrans(dest, q, src); }
      if Under(o, src) {
        assert o == src && q == dest;
      }
    } else if Under(src, q) {
      assert q == src ==> q in u && u[q].Dir?;
    }
  }

  /**
   With the source directory made, a clash is a clash of the original tree or a file in the place of the destination.
   */
  lemma ClashAfterMkdir(t: Tree, src: Path, dest: Path)
    requires WellFormed(t) && Apart(src, dest) && Passable(t, src)
    ensures NoClash(WithDirs(t, src), src, dest) <==> NoClash(t, src, dest) && (dest in t ==> t[dest].Dir?)
  {
    var u := WithDirs(t, src);
    WithDirsAt(t, src);
    assert Under(src, src) && At(u, src) == Some(Dir);
    forall q | Under(dest, q)
      ensures At(u, q) == At(t, q)
      ensures q != dest ==> At(u, Origin(src, dest, q)) == At(t, Origin(src, dest, q))
    {
      var o := Origin(src, dest, q);
      if Under(q, src) { UnderTrans(dest, q, src); }
      assert |o| - |src| == |q| - |dest|;
      assert Under(o, src) ==> |o| == |src|;
      assert At(u, q) == if Under(q, src) && q !in t then Some(Dir) else At(t, q);
      assert At(u, o) == if Under(o, src) && o !in t then Some(Dir) else At(t, o);
    }
    assert Under(dest, dest) && Origin(src, dest, dest) == src;
    if NoClash(u, src, dest) {
      forall q | Under(dest, q) && q in t && Origin(src, dest, q) in t
        ensures t[q].Dir? <==> t[Origin(src, dest, q)].Dir?
      {
        assert At(u, q) == At(t, q);
        assert Under(src, src) ==> (src in t ==> t[src].Dir?);
      }
      assert At(u, dest) == At(t, dest);
    } else {
      var q :| Under(dest, q) && q in u && Origin(src, dest, q) in u && !(u[q].Dir? <==> u[Origin(src, dest, q)].Dir?);
      assert At(u, q) == At(t, q);
    }
  }

  /** `moveFiles`. */
  method MoveFiles(fs: FileSystem, src: Path, dest: Path, svc: string, ghost prefix: Path) returns (ok: bool)
    requires WellFormed(fs.tree) && ValidBelow(fs.tree, src) && src == prefix + [svc]
    requires Walkable(src, svc, dest, dest, prefix) && IsDir(fs.tree, dest[..|dest| - 1])
    modifies fs
    ensures WellFormed(fs.tree)
    ensures ok ==> Moved(old(fs.tree), fs.tree, src, dest) && IsDir(fs.tree, dest)
    ensures fs.reliable ==> (ok <==> Passable(old(fs.tree), src) && NoClash(old(fs.tree), src, dest) &&
                                     (dest in old(fs.tree) ==> old(fs.tree)[dest].Dir?))
    ensures forall q :: !Under(q, src) && !Under(src, q) && !Under(dest, q) ==> At(fs.tree, q) == At(old(fs.tree), q)
    ensures forall q :: q in old(fs.tree) && !Under(src, q) && !Under(dest, q) ==> At(fs.tree, q) == At(old(fs.tree), q)
  {
    ghost var t := fs.tree;
    ok := fs.MkdirAll(src);
    if !ok {
      return;
    }
    WithDirsAt(t, src);
    ClashAfterMkdir(t, src, dest);
    assert Under(src, src) && At(fs.tree, src) == Some(Dir);
    assert ValidBelow(fs.tree, src) by {
      forall q | q in Subtree(fs.tree, src) ensures ValidPath(q) {
        assert At(fs.tree, q) == if Under(q, src) && q !in t then Some(Dir) else At(t, q);
        if q in t { assert q in Subtree(t, src); } else { assert q == src; }
      }
    }
    var parent := dest[..|dest| - 1];
    assert At(fs.tree, parent) == At(t, parent);
    ghost var u := fs.tree;
    ok := Walk(fs, src, svc, dest, dest, prefix);
    if ok {
      MovedAfterMkdir(t, fs.tree, src, dest);
    }
    forall q | !Under(src, q) && !Under(dest, q) && (q in t || !Under(q, src)) ensures At(fs.tree, q) == At(t, q) {
      assert At(fs.tree, q) == At(u, q);
      assert At(u, q) == if Under(q, src) && q !in t then Some(Dir) else At(t, q);
    }
  }

  /** A path of the promoted directory: the stage's entry if there is one, else the base's. */
  function PromotedLeaf(t: Tree, base: Path, stage: Path, rel: Path): Option<Entry> {
    if stage + rel in t then LeafAt(t, stage + rel) else LeafAt(t, base + rel)
  }

  ghost predicate Fresh(t: Tree, dest: Path) {
    forall q :: Under(dest, q) ==> q !in t
  }

  /** The destination is the base tree overlaid by the stage tree, and both sources are empty of files. */
  ghost predicate Overlaid(t: Tree, t': Tree, base: Path, stage: Path, dest: Path) {
    forall q :: LeafAt(t', q) ==
      if Under(dest, q) then PromotedLeaf(t, base, stage, q[|dest|..])
      else if Under(base, q) || Under(stage, q) then None
      else LeafAt(t, q)
  }

  lemma OverlaidByTwoMoves(t: Tree, t1: Tree, t2: Tree, base: Path, stage: Path, dest: Path)
    requires Apart(base, dest) && Apart(stage, dest) && Apart(base, stage) && Fresh(t, dest)
    requires Moved(t, t1, base, dest) && Moved(t1, t2, stage, dest)
    requires forall q :: Under(stage, q) ==> At(t1, q) == At(t, q)
    ensures Overlaid(t, t2, base, stage, dest)
  {
    forall q ensures LeafAt(t2, q) ==
      if Under(dest, q) then PromotedLeaf(t, base, stage, q[|dest|..])
      else if Under(base, q) || Under(stage, q) then None
      else LeafAt(t, q)
    {
      assert LeafAt(t2, q) == MovedLeaf(t1, stage, dest, q);
      assert LeafAt(t1, q) == MovedLeaf(t, base, dest, q);
      ApartBelow(stage, dest, q);
      if Under(dest, q) {
        var o := Origin(stage, dest, q);
        assert At(t1, o) == At(t, o);
        assert At(t, q) == None;
      }
    }
  }

  /** The second move clashes exactly when stage and base clash. */
  lemma ClashThroughBase(t: Tree, t1: Tree, base: Path, stage: Path, dest: Path)
    requires Apart(stage, dest) && Fresh(t, dest) && Moved(t, t1, base, dest)
    requires Passable(t, base) && Passable(t, stage)
    requires forall q :: Under(stage, q) ==> At(t1, q) == At(t, q)
    ensures NoClash(t1, stage, dest) <==> NoClash(t, stage, base)
  {
    assert Under(base, base) && Under(stage, stage);
    if NoClash(t, stage, base) {
      forall q | Under(dest, q) && q in t1 && Origin(stage, dest, q) in t1
        ensures t1[q].Dir? <==> t1[Origin(stage, dest, q)].Dir?
      {
        var b := Origin(base, dest, q);
        SameOrigin(base, stage, dest, q);
        assert At(t1, q) == Arrived(t, base, dest, q) && At(t, q) == None;
        assert At(t1, Origin(stage, dest, q)) == At(t, Origin(stage, dest, q));
        if q == dest { assert Origin(stage, dest, q) == stage; }
      }
    }
    if NoClash(t1, stage, dest) {
      forall b | Under(base, b) && b in t && Origin(stage, base, b) in t
        ensures t[b].Dir? <==> t[Origin(stage, base, b)].Dir?
      {
        var q := Origin(dest, base, b);
        SameOrigin(base, stage, dest, q);
        assert Under(dest, q) && Origin(base, dest, q) == b;
        assert At(t1, q) == Arrived(t, base, dest, q);
        assert At(t1, Origin(stage, dest, q)) == At(t, Origin(stage, dest, q));
        if q == dest { assert b == base; }
      }
    }
  }

  lemma SameOrigin(base: Path, stage: Path, dest: Path, q: Path)
    requires Under(dest, q)
    ensures Under(base, Origin(base, dest, q))
    ensures Origin(stage, base, Origin(base, dest, q)) == Origin(stage, dest, q)
    ensures Under(stage, Origin(stage, dest, q))
  {
    assert Origin(base, dest, q)[|base|..] == q[|dest|..];
  }

  /** The directories of a promotion: the clone of the release tag, the clone of the stage branch and the names. */
  ghost predicate WellPlacedPromotion(t: Tree, master: Path, stageClone: Path, svc: string, stage: string) {
    && WellFormed(t) && IsDir(t, master) && IsDir(t, stageClone) && Apart(master, stageClone)
    && ValidPath(master) && ValidPath(stageClone) && ValidName(stage) && ValidName(svc) && ValidBelow(t, master)
    && WellPlaced(master + ["base"], svc) && WellPlaced(master + ["stages", stage], svc)
  }

  lemma BasePaths(t: Tree, master: Path, stageClone: Path, svc: string)
    requires Apart(master, stageClone) && ValidPath(master) && ValidPath(stageClone) && ValidName(svc)
    requires ValidBelow(t, master) && WellPlaced(master + ["base"], svc)
    ensures SourceReady(t, BaseDir(master, svc), svc, stageClone, master + ["base"])
  {
    SourcePaths(t, master, ["base"], stageClone, svc);
    assert BaseDir(master, svc) == master + ["base"] + [svc];
  }

  lemma StagePaths(t: Tree, master: Path, stageClone: Path, svc: string, stage: string)
    requires Apart(master, stageClone) && ValidPath(master) && ValidPath(stageClone)
    requires ValidName(svc) && ValidName(stage)
    requires ValidBelow(t, master) && WellPlaced(master + ["stages", stage], svc)
    ensures SourceReady(t, StageDir(master, stage, svc), svc, stageClone, master + ["stages", stage])
  {
    SourcePaths(t, master, ["stages", stage], stageClone, svc);
    assert StageDir(master, stage, svc) == master + ["stages", stage] + [svc];
  }

  /** A source directory `prefix/svc` can be walked into the service directory of the stage clone. */
  ghost predicate SourceReady(t: Tree, src: Path, svc: string, stageClone: Path, prefix: Path) {
    var dest := stageClone + [svc];
    && src == prefix + [svc] && Walkable(src, svc, dest, dest, prefix) && Apart(src, dest)
    && dest[..|dest| - 1] == stageClone && ValidBelow(t, src)
  }

  lemma BaseStageApart(dir: Path, stage: string, svc: string)
    ensures Apart(BaseDir(dir, svc), StageDir(dir, stage, svc))
  {
    assert BaseDir(dir, svc)[|dir|] == "base" && StageDir(dir, stage, svc)[|dir|] == "stages";
  }

  lemma SourcePaths(t: Tree, master: Path, middle: Path, stageClone: Path, svc: string)
    requires Apart(master, stageClone) && ValidPath(master) && ValidPath(middle) && ValidPath(stageClone)
    requires ValidName(svc) && ValidBelow(t, master) && WellPlaced(master + middle, svc)
    ensures var src, dest := master + middle + [svc], stageClone + [svc];
      && Walkable(src, svc, dest, dest, master + middle) && Apart(src, dest) && dest[..|dest| - 1] == stageClone
      && ValidBelow(t, src)
  {
    var src, dest := master + middle + [svc], stageClone + [svc];
    assert Under(master, src) && Under(stageClone, dest);
    ApartDeep(master, stageClone, src, dest);
    assert dest + src[|master + middle| + 1..] == dest;
    forall q | q in Subtree(t, src) ensures q in Subtree(t, master) { UnderTrans(master, src, q); }
  }

  lemma ApartDeep(a: Path, b: Path, p: Path, q: Path)
    requires Apart(a, b) && Under(a, p) && Under(b, q)
    ensures Apart(p, q)
  {
    if Under(p, q) { UnderTrans(a, p, q); Comparable(a, b, q); }
    if Under(q, p) { UnderTrans(b, q, p); Comparable(a, b, p); }
  }

  /** The source of the stage is not touched by moving the base. */
  lemma StageSourceKept(t: Tree, t1: Tree, master: Path, stage: string, svc: string, dest: Path)
    requires WellFormed(t) && IsDir(t, master) && Apart(StageDir(master, stage, svc), dest) && !Under(dest, master)
    requires var base := BaseDir(master, svc);
      && (forall q :: !Under(q, base) && !Under(base, q) && !Under(dest, q) ==> At(t1, q) == At(t, q))
      && (forall q :: q in t && !Under(base, q) && !Under(dest, q) ==> At(t1, q) == At(t, q))
    ensures forall q :: Under(StageDir(master, stage, svc), q) ==> At(t1, q) == At(t, q)
    ensures Passable(t1, StageDir(master, stage, svc)) <==> Passable(t, StageDir(master, stage, svc))
  {
    var base, over := BaseDir(master, svc), StageDir(master, stage, svc);
    BaseStageApart(master, stage, svc);
    forall q | Under(over, q) || (Under(q, over) && !Under(q, master)) ensures At(t1, q) == At(t, q) {
      StageSide(master, stage, svc, q);
      ApartBelow(over, dest, q);
      if Under(dest, q) && Under(q, over) { UnderTrans(dest, q, over); }
    }
    forall q | Under(q, master) ensures At(t1, q) == At(t, q) && (q in t ==> t[q].Dir?) {
      if q != master { PrefixIsDir(t, q, master); }
      assert |q| < |base|;
      if Under(dest, q) { UnderTrans(dest, q, master); }
    }
    forall q | Under(q, over) ensures At(t1, q) == At(t, q) {}
  }

  /** A path at, above or below the stage source but not above the clone has nothing to do with the base source. */
  lemma StageSide(master: Path, stage: string, svc: string, q: Path)
    requires Under(StageDir(master, stage, svc), q) || (Under(q, StageDir(master, stage, svc)) && !Under(q, master))
    ensures !Under(q, BaseDir(master, svc)) && !Under(BaseDir(master, svc), q)
  {
    var over := StageDir(master, stage, svc);
    assert Under(master, over) && over[|master|] == "stages" && BaseDir(master, svc)[|master|] == "base";
    if Under(q, over) { Comparable(q, master, over); }
    assert |master| < |q| && q[|master|] == "stages";
  }

  /** `performFileMove`. */
  method PerformFileMove(fs: FileSystem, svc: string, stage: string, master: Path, stageClone: Path)
    returns (ok: bool)
    requires WellPlacedPromotion(fs.tree, master, stageClone, svc, stage)
    modifies fs
    ensures WellFormed(fs.tree)
    ensures ok && Fresh(old(fs.tree), stageClone + [svc]) ==>
            Overlaid(old(fs.tree), fs.tree, BaseDir(master, svc), StageDir(master, stage, svc), stageClone + [svc])
    ensures fs.reliable && Fresh(old(fs.tree), stageClone + [svc]) ==>
            (ok <==> Movable(old(fs.tree), BaseDir(master, svc), StageDir(master, stage, svc)))
    ensures forall q :: Under(stageClone, q) && !Under(stageClone + [svc], q) ==> At(fs.tree, q) == At(old(fs.tree), q)
  {
    ghost var t := fs.tree;
    var base, over, dest := BaseDir(master, svc), StageDir(master, stage, svc), stageClone + [svc];
    BasePaths(t, master, stageClone, svc);
    StagePaths(t, master, stageClone, svc, stage);
    ok := MoveFiles(fs, base, dest, svc, master + ["base"]);
    ghost var t1 := fs.tree;
    StageCloneBeside(t, t1, master, base, stageClone, svc);
    if !ok {
      return;
    }
    if Under(dest, master) { UnderTrans(stageClone, dest, master); }
    StageSourceKept(t, t1, master, stage, svc, dest);
    assert ValidBelow(t1, over) by {
      forall q | q in Subtree(t1, over) ensures ValidPath(q) {
        assert At(t1, q) == At(t, q);
        assert q in Subtree(t, over);
      }
    }
    assert At(t1, stageClone) == At(t, stageClone);
    if Passable(t, base) && Passable(t, over) && Fresh(t, dest) { ClashThroughBase(t, t1, base, over, dest); }
    ok := MoveFiles(fs, over, dest, svc, master + ["stages", stage]);
    StageCloneBeside(t1, fs.tree, master, over, stageClone, svc);
    if ok && Fresh(t, dest) {
      BaseStageApart(master, stage, svc);
      OverlaidByTwoMoves(t, t1, fs.tree, base, over, dest);
    }
  }

  /** Both sources can be walked, and no file of one meets a directory of the other. */
  ghost predicate Movable(t: Tree, base: Path, over: Path) {
    Passable(t, base) && Passable(t, over) && NoClash(t, over, base)
  }

  lemma StageCloneBeside(t: Tree, t1: Tree, master: Path, src: Path, stageClone: Path, svc: string)
    requires Apart(master, stageClone) && Under(master, src) && WellFormed(t) && IsDir(t, stageClone)
    requires forall q :: !Under(q, src) && !Under(src, q) && !Under(stageClone + [svc], q) ==> At(t1, q) == At(t, q)
    ensures forall q :: Under(stageClone, q) && !Under(stageClone + [svc], q) ==> At(t1, q) == At(t, q)
  {
    forall q | Under(stageClone, q) && !Under(stageClone + [svc], q) ensures At(t1, q) == At(t, q) {
      ApartDeep(master, stageClone, src, q);
    }
  }
}
