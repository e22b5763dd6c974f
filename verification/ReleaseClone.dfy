/**
 A fresh clone of a delivered commit: when the files of the base and of a stage can be put over one another, by what the
 code repository held (gitops-operator/controllers/utils_artifactdelivery.go:54-82,
 promotion-service/pkg/utils/githandler.go:197-263).
 */
module ReleaseClone {
  import opened Wrappers
  import opened FileTree
  import opened Delivery
  import opened Overlay
  import opened Promotion
  import opened GitClient

  lemma DeliveredBase(next: Snapshot, prev: Snapshot, t: Tree, dir: Path, service: Directory, chart: Option<Path>,
                      stages: seq<Directory>, copied: set<nat>, rel: Path)
    requires RecordsService(prev, next, t, dir, service, chart, stages, copied)
    ensures Under(BaseDir(dir, service.name), BaseDir(dir, service.name) + rel)
    ensures At(next, ["base", service.name] + rel) ==
            BaseLeaf(t, dir, service, chart, BaseDir(dir, service.name) + rel)
  {
    var r := ["base", service.name] + rel;
    assert dir + r == BaseDir(dir, service.name) + rel;
  }

  lemma DeliveredStage(next: Snapshot, prev: Snapshot, t: Tree, dir: Path, service: Directory, chart: Option<Path>,
                       stages: seq<Directory>, copied: set<nat>, i: nat, rel: Path)
    requires RecordsService(prev, next, t, dir, service, chart, stages, copied)
    requires DistinctNames(stages) && i < |stages| && i in copied
    ensures At(next, ["stages", stages[i].name, service.name] + rel) == FileAt(t, stages[i].path + [service.name] + rel)
  {
    var d := StageDir(dir, stages[i].name, service.name);
    var r := ["stages", stages[i].name, service.name] + rel;
    var p := d + rel;
    assert dir + r == p;
    assert Under(d, p) && p[|d|..] == rel;
    StageOverAt(dir, service.name, stages, p, i);
    BaseNotStage(dir, stages[i].name, service.name, p);
  }

  /** A clone reads as the commit. */
  lemma ClonedLeaf(u: Tree, master: Path, middle: Path, rel: Path)
    ensures LeafAt(u, master + middle + rel) == At(SnapshotOf(u, master), middle + rel)
  {
    SnapshotAt(u, master, middle + rel);
    assert master + (middle + rel) == master + middle + rel;
  }

  // ---------- A fresh clone ----------

  ghost predicate LeafBelow(u: Tree, q: Path) {
    exists more :: more != [] && LeafAt(u, q + more).Some?
  }

  /** What `git clone` leaves at `master`: the files of the commit and the directories they need. */
  ghost predicate FreshClone(u: Tree, master: Path, next: Snapshot) {
    && WellFormed(u) && IsDir(u, master) && SnapshotOf(u, master) == next
    && forall q :: Under(master, q) && q != master && IsDir(u, q) ==> LeafBelow(u, q)
  }

  lemma DirAboveLeaf(u: Tree, q: Path)
    requires WellFormed(u) && LeafBelow(u, q)
    ensures IsDir(u, q)
  {
    var more :| more != [] && LeafAt(u, q + more).Some?;
    PrefixIsDir(u, q, q + more);
  }

  /** No file of one is where the other has a directory. */
  ghost predicate LeavesApart(u: Tree, base: Path, over: Path) {
    && (forall rel: Path :: LeafAt(u, base + rel).Some? ==> !LeafBelow(u, over + rel))
    && (forall rel: Path :: LeafAt(u, over + rel).Some? ==> !LeafBelow(u, base + rel))
  }

  lemma OriginOf(base: Path, over: Path, rel: Path)
    ensures Under(base, base + rel) && Origin(over, base, base + rel) == over + rel
  {}

  lemma NoClashExactly(u: Tree, master: Path, next: Snapshot, base: Path, over: Path)
    requires FreshClone(u, master, next) && master < base && master < over
    ensures NoClash(u, over, base) <==> LeavesApart(u, base, over)
  {
    if NoClash(u, over, base) {
      forall rel: Path
        ensures LeafAt(u, base + rel).Some? ==> !LeafBelow(u, over + rel)
        ensures LeafAt(u, over + rel).Some? ==> !LeafBelow(u, base + rel)
      {
        OriginOf(base, over, rel);
        if LeafBelow(u, over + rel) { DirAboveLeaf(u, over + rel); }
        if LeafBelow(u, base + rel) { DirAboveLeaf(u, base + rel); }
      }
    }
    if LeavesApart(u, base, over) {
      forall q | Under(base, q) && q in u && Origin(over, base, q) in u
        ensures u[q].Dir? <==> u[Origin(over, base, q)].Dir?
      {
        var rel := q[|base|..];
        assert q == base + rel && Under(master, q) && Under(master, over + rel);
      }
    }
  }

  /** The way down to a directory is free exactly if no leaf stands on it, and none at its end. */
  lemma FreeExactly(u: Tree, master: Path, svc: string, stage: string)
    requires WellFormed(u) && IsDir(u, master)
    ensures Passable(u, BaseDir(master, svc)) <==>
            LeafAt(u, master + ["base"]) == None && LeafAt(u, BaseDir(master, svc)) == None
    ensures Passable(u, StageDir(master, stage, svc)) <==>
            LeafAt(u, master + ["stages"]) == None && LeafAt(u, master + ["stages", stage]) == None &&
            LeafAt(u, StageDir(master, stage, svc)) == None
  {
    PassableDir(u, master);
    PassableStep(u, master, "base");
    PassableStep(u, master + ["base"], svc);
    PassableStep(u, master, "stages");
    PassableStep(u, master + ["stages"], stage);
    PassableStep(u, master + ["stages", stage], svc);
    assert master + ["base"] + [svc] == BaseDir(master, svc);
    assert master + ["stages"] + [stage] == master + ["stages", stage];
    assert master + ["stages", stage] + [svc] == StageDir(master, stage, svc);
  }

  // ---------- By the sources ----------

  /** The file that belongs at `rel` of the service's base directory. */
  function BaseSource(t: Tree, dir: Path, service: Directory, chart: Option<Path>, rel: Path): Option<Entry> {
    assert Under(BaseDir(dir, service.name), BaseDir(dir, service.name) + rel);
    BaseLeaf(t, dir, service, chart, BaseDir(dir, service.name) + rel)
  }

  /** The file that belongs at `rel` of its directory on the stage. */
  function StageSource(t: Tree, stage: Directory, svc: string, rel: Path): Option<Entry> {
    FileAt(t, stage.path + [svc] + rel)
  }

  ghost predicate BaseBelow(t: Tree, dir: Path, service: Directory, chart: Option<Path>, rel: Path) {
    exists more :: more != [] && BaseSource(t, dir, service, chart, rel + more).Some?
  }

  ghost predicate StageBelow(t: Tree, stage: Directory, svc: string, rel: Path) {
    exists more :: more != [] && StageSource(t, stage, svc, rel + more).Some?
  }

  /** No file of the service or its chart is where the stage has a directory, nor the other way round. */
  ghost predicate FilesApart(t: Tree, dir: Path, service: Directory, chart: Option<Path>, stage: Directory) {
    && (forall rel: Path ::
          BaseSource(t, dir, service, chart, rel).Some? ==> !StageBelow(t, stage, service.name, rel))
    && (forall rel: Path ::
          StageSource(t, stage, service.name, rel).Some? ==> !BaseBelow(t, dir, service, chart, rel))
  }

  /** No leaf of the working tree `t` stands where the service's directories go. */
  predicate RootsFree(t: Tree, dir: Path, stage: string) {
    && LeafAt(t, dir + ["base"]) == None && LeafAt(t, dir + ["stages"]) == None
    && LeafAt(t, dir + ["stages", stage]) == None
  }

  /** What the code repository must hold so that the service can be promoted to the stage. */
  ghost predicate Promotable(t: Tree, dir: Path, service: Directory, chart: Option<Path>, stage: Directory) {
    && FilesApart(t, dir, service, chart, stage) && RootsFree(t, dir, stage.name)
    && BaseSource(t, dir, service, chart, []) == None && StageSource(t, stage, service.name, []) == None
  }

  /** The clone's leaves below the two directories are those of the sources. */
  ghost predicate LeavesOf(u: Tree, base: Path, over: Path, t: Tree, dir: Path, service: Directory, chart: Option<Path>,
                           stage: Directory)
  {
    forall rel: Path ::
      && LeafAt(u, base + rel) == BaseSource(t, dir, service, chart, rel)
      && LeafAt(u, over + rel) == StageSource(t, stage, service.name, rel)
  }

  lemma LeavesBelow(u: Tree, base: Path, over: Path, t: Tree, dir: Path, service: Directory, chart: Option<Path>,
                    stage: Directory, rel: Path)
    requires LeavesOf(u, base, over, t, dir, service, chart, stage)
    ensures LeafBelow(u, base + rel) <==> BaseBelow(t, dir, service, chart, rel)
    ensures LeafBelow(u, over + rel) <==> StageBelow(t, stage, service.name, rel)
  {
    forall more: Path
      ensures LeafAt(u, base + rel + more) == BaseSource(t, dir, service, chart, rel + more)
      ensures LeafAt(u, over + rel + more) == StageSource(t, stage, service.name, rel + more)
    {
      assert base + rel + more == base + (rel + more) && over + rel + more == over + (rel + more);
    }
  }

  lemma LeavesApartExactly(u: Tree, base: Path, over: Path, t: Tree, dir: Path, service: Directory,
                           chart: Option<Path>, stage: Directory)
    requires LeavesOf(u, base, over, t, dir, service, chart, stage)
    ensures LeavesApart(u, base, over) <==> FilesApart(t, dir, service, chart, stage)
  {
    forall rel: Path
      ensures LeafBelow(u, base + rel) <==> BaseBelow(t, dir, service, chart, rel)
      ensures LeafBelow(u, over + rel) <==> StageBelow(t, stage, service.name, rel)
    {
      LeavesBelow(u, base, over, t, dir, service, chart, stage, rel);
    }
  }

  lemma ClonedLeaves(prev: Snapshot, next: Snapshot, t: Tree, dir: Path, service: Directory, chart: Option<Path>,
                     stages: seq<Directory>, copied: set<nat>, i: nat, u: Tree, master: Path)
    requires RecordsService(prev, next, t, dir, service, chart, stages, copied)
    requires DistinctNames(stages) && i < |stages| && i in copied && SnapshotOf(u, master) == next
    ensures LeavesOf(u, BaseDir(master, service.name), StageDir(master, stages[i].name, service.name), t, dir, service,
                     chart, stages[i])
  {
    var base, over := BaseDir(master, service.name), StageDir(master, stages[i].name, service.name);
    forall rel: Path
      ensures LeafAt(u, base + rel) == BaseSource(t, dir, service, chart, rel)
      ensures LeafAt(u, over + rel) == StageSource(t, stages[i], service.name, rel)
    {
      DeliveredBase(next, prev, t, dir, service, chart, stages, copied, rel);
      DeliveredStage(next, prev, t, dir, service, chart, stages, copied, i, rel);
      ClonedLeaf(u, master, ["base", service.name], rel);
      ClonedLeaf(u, master, ["stages", stages[i].name, service.name], rel);
    }
  }

  /** A service's commit has what the one before had above the service directories. */
  lemma RootsRecorded(prev: Snapshot, next: Snapshot, t: Tree, dir: Path, service: Directory, chart: Option<Path>,
                      stages: seq<Directory>, copied: set<nat>, r: Path)
    requires RecordsService(prev, next, t, dir, service, chart, stages, copied)
    requires |r| == 1 || (|r| == 2 && r[0] == "stages")
    ensures At(next, r) == At(prev, r)
  {
    assert (dir + r)[|dir|] == r[0] && BaseDir(dir, service.name)[|dir|] == "base";
  }

  predicate FreeRoots(c: Snapshot, stage: string) {
    At(c, ["base"]) == None && At(c, ["stages"]) == None && At(c, ["stages", stage]) == None
  }

  lemma RootsOfSnapshot(t: Tree, dir: Path, stage: string)
    ensures FreeRoots(SnapshotOf(t, dir), stage) <==> RootsFree(t, dir, stage)
  {
    SnapshotAt(t, dir, ["base"]);
    SnapshotAt(t, dir, ["stages"]);
    SnapshotAt(t, dir, ["stages", stage]);
  }

  lemma RootsKeptFree(prev: Snapshot, next: Snapshot, t: Tree, dir: Path, service: Directory, chart: Option<Path>,
                      stages: seq<Directory>, copied: set<nat>, stage: string)
    requires RecordsService(prev, next, t, dir, service, chart, stages, copied)
    ensures FreeRoots(next, stage) <==> FreeRoots(prev, stage)
  {
    RootsRecorded(prev, next, t, dir, service, chart, stages, copied, ["base"]);
    RootsRecorded(prev, next, t, dir, service, chart, stages, copied, ["stages"]);
    RootsRecorded(prev, next, t, dir, service, chart, stages, copied, ["stages", stage]);
  }

  /**
   A fresh clone of a service's commit can be moved to the stage if and only if the code repository's files for the base
   and the stage agree on what is a file and what a directory, and nothing stood in their way in the working tree.
   */
  lemma ClonedMovable(next: Snapshot, t: Tree, dir: Path, service: Directory, chart: Option<Path>, stage: Directory,
                      u: Tree, master: Path)
    requires FreshClone(u, master, next) && (FreeRoots(next, stage.name) <==> RootsFree(t, dir, stage.name))
    requires LeavesOf(u, BaseDir(master, service.name), StageDir(master, stage.name, service.name), t, dir, service,
                      chart, stage)
    ensures Movable(u, BaseDir(master, service.name), StageDir(master, stage.name, service.name)) <==>
            Promotable(t, dir, service, chart, stage)
  {
    var base, over := BaseDir(master, service.name), StageDir(master, stage.name, service.name);
    FreeExactly(u, master, service.name, stage.name);
    RootsOfSnapshot(u, master, stage.name);
    NoClashExactly(u, master, next, base, over);
    LeavesApartExactly(u, base, over, t, dir, service, chart, stage);
    EndsOf(u, base, over, t, dir, service, chart, stage);
  }

  lemma EndsOf(u: Tree, base: Path, over: Path, t: Tree, dir: Path, service: Directory, chart: Option<Path>,
               stage: Directory)
    requires LeavesOf(u, base, over, t, dir, service, chart, stage)
    ensures LeafAt(u, base) == BaseSource(t, dir, service, chart, [])
    ensures LeafAt(u, over) == StageSource(t, stage, service.name, [])
  {
    assert base + [] == base && over + [] == over;
  }
}
