/**
 Artifact delivery: every service whose release tag is new is copied from the code repository into the upstream
 repository, committed and tagged (gitops-operator/controllers/utils_artifactdelivery.go:34-88,
 gitops-operator/controllers/fileutils.go:159-172).
 */
module Delivery {
  import opened Wrappers
  import opened FileTree
  import opened GitClient
  import opened ReleaseTag

  /** A directory found by `findServiceDirs` or `findDirs`. */
  datatype Directory = Directory(name: string, path: Path)

  datatype Metadata = Metadata(version: string, configVersion: string, chartDir: Option<Path>, overwriteTag: bool)

  datatype DeliveryError =
    | CleanupFailed
    | BaseCopy(cause: CopyError)
    | ChartCopy(cause: CopyError)
    | StageCopy(cause: CopyError)
    | PushFailed

  function TagOf(service: Directory, meta: Metadata): string {
    PublishedTag(service.name, meta.version, meta.configVersion)
  }

  function BaseDir(dir: Path, svc: string): Path {
    dir + ["base", svc]
  }

  function ChartTarget(dir: Path, svc: string): Path {
    BaseDir(dir, svc) + ["helm", svc]
  }

  function StageDir(dir: Path, stage: string, svc: string): Path {
    dir + ["stages", stage, svc]
  }

  /** Neither path lies at or below the other. */
  predicate Apart(p: Path, q: Path) {
    !Under(p, q) && !Under(q, p)
  }

  // ---------- What a commit records ----------

  function LeafAt(t: Tree, p: Path): Option<Entry> {
    if p in t && !t[p].Dir? then Some(t[p]) else None
  }

  function FileAt(t: Tree, p: Path): Option<Entry> {
    if p in t && t[p].File? then Some(t[p]) else None
  }

  /** Git records files and symbolic links, not directories. */
  function SnapshotOf(t: Tree, dir: Path): Snapshot {
    map r | r in Recorded(t, dir) :: t[dir + r]
  }

  function Recorded(t: Tree, dir: Path): (s: set<Path>)
    ensures forall r :: r in s ==> dir + r in t
  {
    var s := set p | p in t && Under(dir, p) && !t[p].Dir? :: p[|dir|..];
    assert forall p :: p in t && Under(dir, p) ==> dir + p[|dir|..] == p;
    s
  }

  lemma SnapshotAt(t: Tree, dir: Path, r: Path)
    ensures At(SnapshotOf(t, dir), r) == LeafAt(t, dir + r)
  {
    assert Under(dir, dir + r) && (dir + r)[|dir|..] == r;
    if r in Recorded(t, dir) {
      var p :| p in t && Under(dir, p) && !t[p].Dir? && p[|dir|..] == r;
      assert p == dir + r;
    }
  }

  /** Copying adds exactly the files below the source. */
  lemma CopyLeaves(t: Tree, t': Tree, src: Path, dst: Path, p: Path)
    requires Copied(t, t', src, dst) && dst !in t
    ensures LeafAt(t', p) == if Under(dst, p) then FileAt(t, Origin(src, dst, p)) else LeafAt(t, p)
  {
    assert At(t', p) == FullCopy(t, src, dst, p);
  }

  // ---------- What publishing a service means ----------

  /** The position of a stage name in the list. */
  function StageIndex(stages: seq<Directory>, name: string): (r: Option<nat>)
    ensures r.Some? ==> r.value < |stages| && stages[r.value].name == name
    ensures r == None ==> forall i :: 0 <= i < |stages| ==> stages[i].name != name
  {
    if stages == [] then None
    else if stages[0].name == name then Some(0)
    else
      var r := StageIndex(stages[1..], name);
      if r == None then None else Some(r.value + 1)
  }

  predicate DistinctNames(stages: seq<Directory>) {
    forall i, j :: 0 <= i < j < |stages| ==> stages[i].name != stages[j].name
  }

  /** The listed stage whose directory for the service contains `p`. */
  function StageOver(dir: Path, svc: string, stages: seq<Directory>, p: Path): (r: Option<nat>)
    ensures r.Some? ==> r.value < |stages| && Under(StageDir(dir, stages[r.value].name, svc), p)
  {
    if |dir| + 3 <= |p| && p[..|dir| + 3] == StageDir(dir, p[|dir| + 1], svc) then
      var r := StageIndex(stages, p[|dir| + 1]);
      assert r.Some? ==> Under(p[..|dir| + 3], p);
      r
    else None
  }

  lemma StageOverAt(dir: Path, svc: string, stages: seq<Directory>, p: Path, i: nat)
    requires DistinctNames(stages) && i < |stages| && Under(StageDir(dir, stages[i].name, svc), p)
    ensures StageOver(dir, svc, stages, p) == Some(i)
  {
    var d := StageDir(dir, stages[i].name, svc);
    assert p[..|dir| + 3] == d && p[|dir| + 1] == d[|dir| + 1] == stages[i].name;
  }

  lemma BaseNotStage(dir: Path, stage: string, svc: string, p: Path)
    ensures !(Under(BaseDir(dir, svc), p) && Under(StageDir(dir, stage, svc), p))
  {
    if Under(BaseDir(dir, svc), p) { assert p[|dir|] == BaseDir(dir, svc)[|dir|] == "base"; }
    assert StageDir(dir, stage, svc)[|dir|] == "stages";
  }

  /** The files of `base/<svc>`: those of the service, and the chart at `helm/<svc>` when one is given. */
  function BaseLeaf(t: Tree, dir: Path, service: Directory, chart: Option<Path>, p: Path): Option<Entry>
    requires Under(BaseDir(dir, service.name), p)
  {
    if chart.Some? && Under(ChartTarget(dir, service.name), p)
    then FileAt(t, Origin(chart.value, ChartTarget(dir, service.name), p))
    else FileAt(t, Origin(service.path, BaseDir(dir, service.name), p))
  }

  /**
   The leaf at `p` once the base and the stages in `copied` are there: `before` is the leaf before the service and `t`
   the tree its sources are read from.
   */
  function DeliveredLeaf(before: Option<Entry>, t: Tree, dir: Path, service: Directory, chart: Option<Path>,
                         stages: seq<Directory>, copied: set<nat>, p: Path): Option<Entry>
  {
    if Under(BaseDir(dir, service.name), p) then BaseLeaf(t, dir, service, chart, p)
    else
      match StageOver(dir, service.name, stages, p)
      case None => before
      case Some(i) =>
        if i in copied then
          FileAt(t, Origin(stages[i].path + [service.name], StageDir(dir, stages[i].name, service.name), p))
        else None
  }

  /** In files: base and copied stages are the service's own sources, all other paths are as before. */
  ghost predicate Delivered(t: Tree, t': Tree, dir: Path, service: Directory, chart: Option<Path>,
                            stages: seq<Directory>, copied: set<nat>)
  {
    forall p :: LeafAt(t', p) == DeliveredLeaf(LeafAt(t, p), t, dir, service, chart, stages, copied, p)
  }

  /** The same for a commit and the one before it. */
  ghost predicate RecordsService(prev: Snapshot, next: Snapshot, t: Tree, dir: Path, service: Directory,
                                 chart: Option<Path>, stages: seq<Directory>, copied: set<nat>)
  {
    forall r :: At(next, r) == DeliveredLeaf(At(prev, r), t, dir, service, chart, stages, copied, dir + r)
  }

  /** The sources of a service lie outside the working tree. */
  ghost predicate SourcesApart(dir: Path, service: Directory, meta: Metadata, stages: seq<Directory>) {
    && Apart(service.path, dir)
    && (meta.chartDir.Some? ==> Apart(meta.chartDir.value, dir))
    && StagesApart(dir, stages)
  }

  ghost predicate StagesApart(dir: Path, stages: seq<Directory>) {
    forall i :: 0 <= i < |stages| ==> Apart(stages[i].path, dir)
  }

  ghost predicate SameBeside(t: Tree, t': Tree, dir: Path) {
    forall p :: !Under(dir, p) ==> At(t', p) == At(t, p)
  }

  /** Everything below a source apart from the working tree is read as it was. */
  lemma SourceSame(t: Tree, t': Tree, dir: Path, src: Path, p: Path)
    requires SameBeside(t, t', dir) && Apart(src, dir) && Under(src, p)
    ensures At(t', p) == At(t, p)
  {
    if Under(dir, p) { Comparable(src, dir, p); }
  }

  // ---------- Cleaning up ----------

  ghost predicate Cleaned(t: Tree, t': Tree, dir: Path, svc: string, stages: seq<Directory>, done: nat) {
    forall p :: At(t', p) ==
      if Under(BaseDir(dir, svc), p) || Covered(dir, svc, stages, done, p) then None else At(t, p)
  }

  predicate Covered(dir: Path, svc: string, stages: seq<Directory>, done: nat, p: Path) {
    var i := StageOver(dir, svc, stages, p);
    i.Some? && i.value < done
  }

  lemma CoveredStep(dir: Path, svc: string, stages: seq<Directory>, done: nat, p: Path)
    requires DistinctNames(stages) && done < |stages|
    ensures Covered(dir, svc, stages, done + 1, p) <==>
            Covered(dir, svc, stages, done, p) || Under(StageDir(dir, stages[done].name, svc), p)
  {
    if Under(StageDir(dir, stages[done].name, svc), p) { StageOverAt(dir, svc, stages, p, done); }
  }

  lemma CleanedInside(t: Tree, t': Tree, dir: Path, svc: string, stages: seq<Directory>, done: nat)
    requires Cleaned(t, t', dir, svc, stages, done)
    ensures SameBeside(t, t', dir) && At(t', dir) == At(t, dir)
  {
    forall p | !Under(dir, p) || p == dir
      ensures !Under(BaseDir(dir, svc), p) && !Covered(dir, svc, stages, done, p)
    {
      assert Under(BaseDir(dir, svc), p) ==> Under(dir, p) && |dir| < |p|;
      assert Covered(dir, svc, stages, done, p) ==> Under(dir, p) && |dir| < |p|;
    }
  }

  /** No file stands where the directories above the removed ones belong. */
  ghost predicate Cleanable(t: Tree, dir: Path, stages: seq<Directory>) {
    FileAt(t, dir + ["base"]) == None && NoStageFiles(t, dir, stages)
  }

  ghost predicate NoStageFiles(t: Tree, dir: Path, stages: seq<Directory>) {
    forall i :: 0 <= i < |stages| ==> NoStageFile(t, dir, stages[i].name)
  }

  predicate NoStageFile(t: Tree, dir: Path, stage: string) {
    FileAt(t, dir + ["stages"]) == None && FileAt(t, dir + ["stages", stage]) == None
  }

  lemma AboveBase(t: Tree, dir: Path, svc: string)
    requires WellFormed(t) && IsDir(t, dir)
    ensures NoFileAbove(t, BaseDir(dir, svc)) <==> FileAt(t, dir + ["base"]) == None
  {
    NoFileAboveChild(t, dir, "base");
    NoFileAboveStep(t, dir + ["base"], svc);
    assert dir + ["base"] + [svc] == BaseDir(dir, svc);
  }

  lemma AboveStage(t: Tree, dir: Path, stage: string, svc: string)
    requires WellFormed(t) && IsDir(t, dir)
    ensures NoFileAbove(t, StageDir(dir, stage, svc)) <==> NoStageFile(t, dir, stage)
  {
    NoFileAboveChild(t, dir, "stages");
    NoFileAboveStep(t, dir + ["stages"], stage);
    assert dir + ["stages"] + [stage] == dir + ["stages", stage];
    NoFileAboveStep(t, dir + ["stages", stage], svc);
    assert dir + ["stages", stage] + [svc] == StageDir(dir, stage, svc);
  }

  /** Cleaning up changes none of the directories above the removed ones. */
  lemma CleanedAbove(t: Tree, t': Tree, dir: Path, svc: string, stages: seq<Directory>, done: nat, stage: string)
    requires Cleaned(t, t', dir, svc, stages, done)
    ensures At(t', dir + ["base"]) == At(t, dir + ["base"]) && At(t', dir + ["stages"]) == At(t, dir + ["stages"])
    ensures At(t', dir + ["stages", stage]) == At(t, dir + ["stages", stage])
    ensures At(t', dir) == At(t, dir)
  {
    var base := BaseDir(dir, svc);
    assert base[|dir|] == "base" && (dir + ["stages", stage])[|dir|] == "stages";
    CleanedInside(t, t', dir, svc, stages, done);
  }

  /** The next removal meets a file exactly if there was one before the cleanup. */
  lemma NextRemoval(t: Tree, u: Tree, dir: Path, svc: string, stages: seq<Directory>, done: nat)
    requires WellFormed(u) && IsDir(t, dir) && done < |stages| && Cleaned(t, u, dir, svc, stages, done)
    ensures NoFileAbove(u, StageDir(dir, stages[done].name, svc)) <==> NoStageFile(t, dir, stages[done].name)
  {
    CleanedAbove(t, u, dir, svc, stages, done, stages[done].name);
    assert IsDir(u, dir) by { assert At(u, dir) == At(t, dir); }
    AboveStage(u, dir, stages[done].name, svc);
    assert At(u, dir + ["stages"]) == At(t, dir + ["stages"]);
  }

  lemma CleanedStart(t: Tree, u: Tree, dir: Path, svc: string, stages: seq<Directory>)
    requires RemovedAt(t, u, BaseDir(dir, svc))
    ensures Cleaned(t, u, dir, svc, stages, 0)
  {}

  lemma CleanedStep(t: Tree, u: Tree, u': Tree, dir: Path, svc: string, stages: seq<Directory>, done: nat)
    requires DistinctNames(stages) && done < |stages| && Cleaned(t, u, dir, svc, stages, done)
    requires RemovedAt(u, u', StageDir(dir, stages[done].name, svc))
    ensures Cleaned(t, u', dir, svc, stages, done + 1)
  {
    forall p ensures At(u', p) ==
      if Under(BaseDir(dir, svc), p) || Covered(dir, svc, stages, done + 1, p) then None else At(t, p)
    {
      CoveredStep(dir, svc, stages, done, p);
    }
  }

  /** One turn of the loop of `cleanupServiceDirs`. */
  method CleanStage(fs: FileSystem, svc: string, dir: Path, stages: seq<Directory>, i: nat, ghost t: Tree)
    returns (ok: bool)
    requires WellFormed(fs.tree) && IsDir(t, dir) && DistinctNames(stages) && i < |stages|
    requires Cleaned(t, fs.tree, dir, svc, stages, i)
    modifies fs
    ensures WellFormed(fs.tree)
    ensures ok ==> Cleaned(t, fs.tree, dir, svc, stages, i + 1) && NoStageFile(t, dir, stages[i].name)
    ensures fs.reliable ==> (ok <==> NoStageFile(t, dir, stages[i].name))
  {
    ghost var u := fs.tree;
    NextRemoval(t, u, dir, svc, stages, i);
    ok := fs.RemoveAll(StageDir(dir, stages[i].name, svc));
    if ok {
      CleanedStep(t, u, fs.tree, dir, svc, stages, i);
    }
  }

  /** `cleanupServiceDirs`. */
  method CleanupServiceDirs(fs: FileSystem, svc: string, dir: Path, stages: seq<Directory>) returns (ok: bool)
    requires WellFormed(fs.tree) && IsDir(fs.tree, dir) && DistinctNames(stages)
    modifies fs
    ensures WellFormed(fs.tree)
    ensures ok ==> Cleaned(old(fs.tree), fs.tree, dir, svc, stages, |stages|)
    ensures fs.reliable ==> (ok <==> Cleanable(old(fs.tree), dir, stages))
  {
    ghost var t := fs.tree;
    AboveBase(t, dir, svc);
    ok := fs.RemoveAll(BaseDir(dir, svc));
    if !ok {
      return;
    }
    CleanedStart(t, fs.tree, dir, svc, stages);
    ok := CleanStages(fs, svc, dir, stages, t);
  }

  /** The loop of `cleanupServiceDirs`. */
  method CleanStages(fs: FileSystem, svc: string, dir: Path, stages: seq<Directory>, ghost t: Tree) returns (ok: bool)
    requires WellFormed(fs.tree) && IsDir(t, dir) && DistinctNames(stages)
    requires Cleaned(t, fs.tree, dir, svc, stages, 0)
    modifies fs
    ensures WellFormed(fs.tree)
    ensures ok ==> Cleaned(t, fs.tree, dir, svc, stages, |stages|) && NoStageFiles(t, dir, stages)
    ensures fs.reliable ==> (ok <==> NoStageFiles(t, dir, stages))
  {
    for i := 0 to |stages|
      invariant WellFormed(fs.tree) && Cleaned(t, fs.tree, dir, svc, stages, i)
      invariant forall j :: 0 <= j < i ==> NoStageFile(t, dir, stages[j].name)
    {
      ok := CleanStage(fs, svc, dir, stages, i, t);
      if !ok {
        return;
      }
    }
    ok := true;
  }

  // ---------- Copying one service ----------

  lemma CopyInside(t: Tree, t': Tree, src: Path, dst: Path, dir: Path)
    requires WellFormed(t) && IsDir(t, dir) && dir < dst && dst !in t && Copied(t, t', src, dst)
    ensures SameBeside(t, t', dir) && At(t', dir) == At(t, dir)
  {
    forall p | !Under(dir, p) || p == dir ensures At(t', p) == At(t, p) {
      assert At(t', p) == FullCopy(t, src, dst, p);
      if Under(p, dst) {
        Comparable(p, dir, dst);
        if p != dir { PrefixIsDir(t, p, dir); }
      }
    }
  }

  /** What holds while the stages are copied; the stages from `next` on are still absent. */
  ghost predicate Copying(t: Tree, now: Tree, dir: Path, service: Directory, chart: Option<Path>,
                          stages: seq<Directory>, copied: set<nat>, next: nat)
  {
    && WellFormed(now) && IsDir(now, dir) && SameBeside(t, now, dir)
    && Delivered(t, now, dir, service, chart, stages, copied)
    && forall i :: next <= i < |stages| ==> StageDir(dir, stages[i].name, service.name) !in now
  }

  lemma AfterBase(t: Tree, t1: Tree, t2: Tree, dir: Path, service: Directory, stages: seq<Directory>)
    requires WellFormed(t1) && WellFormed(t2) && IsDir(t, dir) && DistinctNames(stages) && Apart(service.path, dir)
    requires Cleaned(t, t1, dir, service.name, stages, |stages|)
    requires BaseDir(dir, service.name) !in t1 && Copied(t1, t2, service.path, BaseDir(dir, service.name))
    ensures Copying(t, t2, dir, service, None, stages, {}, 0)
  {
    var base := BaseDir(dir, service.name);
    CleanedInside(t, t1, dir, service.name, stages, |stages|);
    assert At(t1, dir) == At(t, dir);
    CopyInside(t1, t2, service.path, base, dir);
    forall p ensures LeafAt(t2, p) == DeliveredLeaf(LeafAt(t, p), t, dir, service, None, stages, {}, p) {
      CopyLeaves(t1, t2, service.path, base, p);
      if Under(base, p) {
        SourceSame(t, t1, dir, service.path, Origin(service.path, base, p));
      } else {
        assert At(t1, p) == if Covered(dir, service.name, stages, |stages|, p) then None else At(t, p);
      }
    }
    forall i | 0 <= i < |stages| ensures StageDir(dir, stages[i].name, service.name) !in t2 {
      var d := StageDir(dir, stages[i].name, service.name);
      StageOverAt(dir, service.name, stages, d, i);
      BaseNotStage(dir, stages[i].name, service.name, d);
      assert At(t1, d) == None;
      assert |base| < |d| && At(t2, d) == FullCopy(t1, service.path, base, d);
    }
  }

  lemma AfterChart(t: Tree, t2: Tree, t3: Tree, dir: Path, service: Directory, chart: Path, stages: seq<Directory>)
    requires WellFormed(t3) && Copying(t, t2, dir, service, None, stages, {}, 0) && Apart(chart, dir)
    requires ChartTarget(dir, service.name) !in t2 && Copied(t2, t3, chart, ChartTarget(dir, service.name))
    ensures Copying(t, t3, dir, service, Some(chart), stages, {}, 0)
  {
    var target := ChartTarget(dir, service.name);
    assert Under(BaseDir(dir, service.name), target) && Under(dir, target);
    CopyInside(t2, t3, chart, target, dir);
    forall p ensures LeafAt(t3, p) == DeliveredLeaf(LeafAt(t, p), t, dir, service, Some(chart), stages, {}, p) {
      assert LeafAt(t2, p) == DeliveredLeaf(LeafAt(t, p), t, dir, service, None, stages, {}, p);
      ChartLeaf(t, t2, t3, dir, service, chart, stages, p);
    }
    forall i | 0 <= i < |stages| ensures StageDir(dir, stages[i].name, service.name) !in t3 {
      ChartNotStage(dir, stages[i].name, service.name);
      assert At(t3, StageDir(dir, stages[i].name, service.name)) ==
             FullCopy(t2, chart, target, StageDir(dir, stages[i].name, service.name));
    }
  }

  lemma ChartNotStage(dir: Path, stage: string, svc: string)
    ensures !Under(ChartTarget(dir, svc), StageDir(dir, stage, svc))
    ensures !Under(StageDir(dir, stage, svc), ChartTarget(dir, svc))
  {
    assert StageDir(dir, stage, svc)[|dir|] == "stages" && ChartTarget(dir, svc)[|dir|] == "base";
  }

  lemma ChartLeaf(t: Tree, t2: Tree, t3: Tree, dir: Path, service: Directory, chart: Path, stages: seq<Directory>,
                  p: Path)
    requires SameBeside(t, t2, dir) && Apart(chart, dir)
    requires ChartTarget(dir, service.name) !in t2 && Copied(t2, t3, chart, ChartTarget(dir, service.name))
    requires LeafAt(t2, p) == DeliveredLeaf(LeafAt(t, p), t, dir, service, None, stages, {}, p)
    ensures LeafAt(t3, p) == DeliveredLeaf(LeafAt(t, p), t, dir, service, Some(chart), stages, {}, p)
  {
    var base, target := BaseDir(dir, service.name), ChartTarget(dir, service.name);
    CopyLeaves(t2, t3, chart, target, p);
    if Under(target, p) {
      assert p[..|base|] == target[..|base|] == base;
      SourceSame(t, t2, dir, chart, Origin(chart, target, p));
    }
  }

  lemma AfterStage(t: Tree, now: Tree, now': Tree, dir: Path, service: Directory, chart: Option<Path>,
                   stages: seq<Directory>, copied: set<nat>, i: nat)
    requires DistinctNames(stages) && i < |stages| && Apart(stages[i].path, dir) && i !in copied
    requires WellFormed(now') && Copying(t, now, dir, service, chart, stages, copied, i)
    requires Copied(now, now', stages[i].path + [service.name], StageDir(dir, stages[i].name, service.name))
    ensures Copying(t, now', dir, service, chart, stages, copied + {i}, i + 1)
  {
    var src, dst := stages[i].path + [service.name], StageDir(dir, stages[i].name, service.name);
    CopyInside(now, now', src, dst, dir);
    forall p ensures LeafAt(now', p) == DeliveredLeaf(LeafAt(t, p), t, dir, service, chart, stages, copied + {i}, p) {
      CopyLeaves(now, now', src, dst, p);
      assert LeafAt(now, p) == DeliveredLeaf(LeafAt(t, p), t, dir, service, chart, stages, copied, p);
      if Under(dst, p) {
        StageOverAt(dir, service.name, stages, p, i);
        BaseNotStage(dir, stages[i].name, service.name, p);
        var o := Origin(src, dst, p);
        assert Under(stages[i].path, o);
        SourceSame(t, now, dir, stages[i].path, o);
      }
    }
    LaterStagesAbsent(now, now', dir, service, stages, i);
  }

  lemma LaterStagesAbsent(now: Tree, now': Tree, dir: Path, service: Directory, stages: seq<Directory>, i: nat)
    requires DistinctNames(stages) && i < |stages|
    requires forall j :: i <= j < |stages| ==> StageDir(dir, stages[j].name, service.name) !in now
    requires Copied(now, now', stages[i].path + [service.name], StageDir(dir, stages[i].name, service.name))
    ensures forall j :: i + 1 <= j < |stages| ==> StageDir(dir, stages[j].name, service.name) !in now'
  {
    var src, dst := stages[i].path + [service.name], StageDir(dir, stages[i].name, service.name);
    forall j | i + 1 <= j < |stages| ensures StageDir(dir, stages[j].name, service.name) !in now' {
      var d := StageDir(dir, stages[j].name, service.name);
      assert d[|dir| + 1] == stages[j].name && dst[|dir| + 1] == stages[i].name;
      assert At(now', d) == FullCopy(now, src, dst, d);
    }
  }

  /** A stage without data for the service is as good as copied. */
  lemma EmptyStage(t: Tree, now: Tree, dir: Path, service: Directory, chart: Option<Path>, stages: seq<Directory>,
                   copied: set<nat>, i: nat)
    requires DistinctNames(stages) && i < |stages| && Apart(stages[i].path, dir) && WellFormed(t)
    requires Copying(t, now, dir, service, chart, stages, copied, i)
    requires var s := stages[i].path + [service.name]; s in now ==> now[s].Symlink?
    ensures Copying(t, now, dir, service, chart, stages, copied + {i}, i + 1)
  {
    var src, dst := stages[i].path + [service.name], StageDir(dir, stages[i].name, service.name);
    assert Under(stages[i].path, src);
    SourceSame(t, now, dir, stages[i].path, src);
    assert At(now, src) == At(t, src);
    forall p ensures LeafAt(now, p) == DeliveredLeaf(LeafAt(t, p), t, dir, service, chart, stages, copied + {i}, p) {
      assert LeafAt(now, p) == DeliveredLeaf(LeafAt(t, p), t, dir, service, chart, stages, copied, p);
      var over := StageOver(dir, service.name, stages, p);
      if over == Some(i) {
        var o := Origin(src, dst, p);
        assert src <= o;
        if o in t && src != o { PrefixIsDir(t, src, o); }
      }
    }
  }

  function AllBelow(n: nat): (s: set<nat>)
    ensures forall i: nat :: i in s <==> i < n
  {
    if n == 0 then {} else AllBelow(n - 1) + {n - 1}
  }

  // ---------- When the copies succeed ----------

  /** The chart has a place below the copied service: its copy would not meet a file or an existing directory. */
  predicate ChartFits(t: Tree, service: Directory) {
    && FileAt(t, service.path + ["helm"]) == None
    && var p := service.path + ["helm", service.name]; p in t ==> t[p].Symlink?
  }

  ghost predicate BaseDeliverable(t: Tree, dir: Path, service: Directory, meta: Metadata, stages: seq<Directory>) {
    && Cleanable(t, dir, stages) && LeafAt(t, dir + ["base"]) == None && IsDir(t, service.path)
    && (meta.chartDir.Some? ==> IsDir(t, meta.chartDir.value) && ChartFits(t, service))
  }

  /** A stage without data needs no room; one with data needs a directory and no leaf in its way. */
  predicate StageDeliverable(t: Tree, dir: Path, svc: string, stage: Directory) {
    var src := stage.path + [svc];
    src in t && !t[src].Symlink? ==>
      t[src].Dir? && LeafAt(t, dir + ["stages"]) == None && LeafAt(t, dir + ["stages", stage.name]) == None
  }

  /** What a reliable file system needs for every copy of a service to succeed. */
  ghost predicate Deliverable(t: Tree, dir: Path, service: Directory, meta: Metadata, stages: seq<Directory>) {
    && BaseDeliverable(t, dir, service, meta, stages)
    && StagesDeliverable(t, dir, service.name, stages)
  }

  ghost predicate StagesDeliverable(t: Tree, dir: Path, svc: string, stages: seq<Directory>) {
    forall i :: 0 <= i < |stages| ==> StageDeliverable(t, dir, svc, stages[i])
  }

  lemma DeliverableStep(t: Tree, dir: Path, svc: string, stages: seq<Directory>, i: nat)
    requires i < |stages|
    ensures StagesDeliverable(t, dir, svc, stages[..i + 1]) <==>
            StagesDeliverable(t, dir, svc, stages[..i]) && StageDeliverable(t, dir, svc, stages[i])
    ensures !StageDeliverable(t, dir, svc, stages[i]) ==> !StagesDeliverable(t, dir, svc, stages)
  {
    assert stages[..i + 1] == stages[..i] + [stages[i]];
  }

  lemma PassableStep(t: Tree, p: Path, n: string)
    ensures Passable(t, p + [n]) <==> Passable(t, p) && LeafAt(t, p + [n]) == None
  {
    forall q ensures Under(q, p + [n]) <==> Under(q, p) || q == p + [n] {
      if Under(q, p + [n]) && q != p + [n] { assert q == (p + [n])[..|q|] == p[..|q|]; }
    }
  }

  lemma PassableDir(t: Tree, p: Path)
    requires WellFormed(t) && IsDir(t, p)
    ensures Passable(t, p)
  {
    forall q | Under(q, p) && q in t ensures t[q].Dir? {
      if q != p { PrefixIsDir(t, q, p); }
    }
  }

  /** The cleaned tree has room for the base exactly if no leaf stands at `base`. */
  lemma RoomForBase(t: Tree, t1: Tree, dir: Path, svc: string, stages: seq<Directory>)
    requires WellFormed(t1) && IsDir(t, dir) && Cleaned(t, t1, dir, svc, stages, |stages|)
    ensures Passable(t1, BaseDir(dir, svc)) <==> LeafAt(t, dir + ["base"]) == None
  {
    CleanedAbove(t, t1, dir, svc, stages, |stages|, "");
    assert IsDir(t1, dir) by { assert At(t1, dir) == At(t, dir); }
    PassableDir(t1, dir);
    PassableStep(t1, dir, "base");
    PassableStep(t1, dir + ["base"], svc);
    assert dir + ["base"] + [svc] == BaseDir(dir, svc);
    assert At(t1, BaseDir(dir, svc)) == None;
    assert At(t1, dir + ["base"]) == At(t, dir + ["base"]);
  }

  /** The copied service has room for the chart exactly if the chart fits. */
  lemma RoomForChart(t: Tree, t1: Tree, t2: Tree, dir: Path, service: Directory)
    requires WellFormed(t) && WellFormed(t2) && Apart(service.path, dir) && SameBeside(t, t1, dir)
    requires IsDir(t, service.path) && IsDir(t2, BaseDir(dir, service.name))
    requires Copied(t1, t2, service.path, BaseDir(dir, service.name))
    ensures ChartTarget(dir, service.name) !in t2 && Passable(t2, ChartTarget(dir, service.name)) <==>
            ChartFits(t, service)
  {
    var base, svc := BaseDir(dir, service.name), service.name;
    var helm, target := base + ["helm"], ChartTarget(dir, svc);
    assert helm + [svc] == target;
    PassableDir(t2, base);
    PassableStep(t2, base, "helm");
    PassableStep(t2, helm, svc);
    CopiedEntry(t, t1, t2, dir, service, ["helm"]);
    CopiedEntry(t, t1, t2, dir, service, ["helm", svc]);
    assert base + ["helm", svc] == target;
    var source := service.path + ["helm", svc];
    if source in t { PrefixIsDir(t, service.path + ["helm"], source); }
  }

  lemma CopiedEntry(t: Tree, t1: Tree, t2: Tree, dir: Path, service: Directory, rel: Path)
    requires Apart(service.path, dir) && SameBeside(t, t1, dir) && rel != []
    requires Copied(t1, t2, service.path, BaseDir(dir, service.name))
    ensures At(t2, BaseDir(dir, service.name) + rel) == NoLink(At(t, service.path + rel))
  {
    var base := BaseDir(dir, service.name);
    var q := base + rel;
    assert Under(base, q) && q[|base|..] == rel && Under(service.path, service.path + rel);
    assert At(t2, q) == FullCopy(t1, service.path, base, q);
    if Under(dir, service.path + rel) { Comparable(service.path, dir, service.path + rel); }
  }

  lemma BaseCopied(t1: Tree, t2: Tree, service: Directory, dir: Path)
    requires IsDir(t1, service.path) && Copied(t1, t2, service.path, BaseDir(dir, service.name))
    ensures IsDir(t2, BaseDir(dir, service.name))
  {
    var base := BaseDir(dir, service.name);
    assert Under(base, base) && Origin(service.path, base, base) == service.path;
    assert At(t2, base) == FullCopy(t1, service.path, base, base);
  }

  /** While the stages are copied, there is room for the next one exactly if there was at the start. */
  lemma RoomForStage(t: Tree, now: Tree, dir: Path, service: Directory, chart: Option<Path>, stages: seq<Directory>,
                     copied: set<nat>, i: nat)
    requires i < |stages| && Copying(t, now, dir, service, chart, stages, copied, i)
    ensures Passable(now, StageDir(dir, stages[i].name, service.name)) <==>
            LeafAt(t, dir + ["stages"]) == None && LeafAt(t, dir + ["stages", stages[i].name]) == None
  {
    var n := stages[i].name;
    PassableDir(now, dir);
    PassableStep(now, dir, "stages");
    PassableStep(now, dir + ["stages"], n);
    assert dir + ["stages"] + [n] == dir + ["stages", n];
    PassableStep(now, dir + ["stages", n], service.name);
    assert dir + ["stages", n] + [service.name] == StageDir(dir, n, service.name);
    RootsKept(t, now, dir, service, chart, stages, copied, n);
  }

  /** The leaves above the service directories are not touched. */
  lemma RootsKept(t: Tree, now: Tree, dir: Path, service: Directory, chart: Option<Path>, stages: seq<Directory>,
                  copied: set<nat>, stage: string)
    requires Delivered(t, now, dir, service, chart, stages, copied)
    ensures LeafAt(now, dir + ["base"]) == LeafAt(t, dir + ["base"])
    ensures LeafAt(now, dir + ["stages"]) == LeafAt(t, dir + ["stages"])
    ensures LeafAt(now, dir + ["stages", stage]) == LeafAt(t, dir + ["stages", stage])
  {
    var base := BaseDir(dir, service.name);
    assert base[|dir|] == "base" && (dir + ["stages", stage])[|dir|] == "stages";
    forall p | p == dir + ["base"] || p == dir + ["stages"] || p == dir + ["stages", stage]
      ensures !Under(base, p) && StageOver(dir, service.name, stages, p) == None
      ensures LeafAt(now, p) == LeafAt(t, p)
    {
      assert LeafAt(now, p) == DeliveredLeaf(LeafAt(t, p), t, dir, service, chart, stages, copied, p);
    }
  }

  /** Lines 54-69: clean up, copy the service and its chart. */
  method DeliverBase(fs: FileSystem, dir: Path, service: Directory, meta: Metadata, stages: seq<Directory>)
    returns (e: Option<DeliveryError>)
    requires WellFormed(fs.tree) && IsDir(fs.tree, dir) && DistinctNames(stages)
    requires SourcesApart(dir, service, meta, stages)
    modifies fs
    ensures e == None ==> Copying(old(fs.tree), fs.tree, dir, service, meta.chartDir, stages, {}, 0)
    ensures e != Some(BaseCopy(DestinationExists)) && e != Some(PushFailed)
    ensures e.Some? ==> !e.value.StageCopy?
    ensures fs.reliable ==> (e == None <==> BaseDeliverable(old(fs.tree), dir, service, meta, stages))
  {
    ghost var t := fs.tree;
    var cleaned := CleanupServiceDirs(fs, service.name, dir, stages);
    if !cleaned {
      return Some(CleanupFailed);
    }
    ghost var t1 := fs.tree;
    CleanedInside(t, t1, dir, service.name, stages, |stages|);
    var base := BaseDir(dir, service.name);
    assert At(t1, base) == None;
    if Under(service.path, base) { Comparable(service.path, dir, base); }
    RoomForBase(t, t1, dir, service.name, stages);
    assert At(t1, service.path) == At(t, service.path);
    var failed := fs.CopyDir(service.path, base);
    if failed.Some? {
      return Some(BaseCopy(failed.value));
    }
    AfterBase(t, t1, fs.tree, dir, service, stages);
    BaseCopied(t1, fs.tree, service, dir);
    if meta.chartDir.Some? {
      e := DeliverChart(fs, dir, service, meta.chartDir.value, stages, t, t1);
      return;
    }
    e := None;
  }

  /** Lines 64-69: the copy of the chart. */
  method DeliverChart(fs: FileSystem, dir: Path, service: Directory, chart: Path, stages: seq<Directory>,
                      ghost t: Tree, ghost t1: Tree)
    returns (e: Option<DeliveryError>)
    requires WellFormed(t) && Copying(t, fs.tree, dir, service, None, stages, {}, 0) && DistinctNames(stages)
    requires Apart(chart, dir) && Apart(service.path, dir) && SameBeside(t, t1, dir)
    requires IsDir(t, service.path) && IsDir(fs.tree, BaseDir(dir, service.name))
    requires Copied(t1, fs.tree, service.path, BaseDir(dir, service.name))
    modifies fs
    ensures e == None ==> Copying(t, fs.tree, dir, service, Some(chart), stages, {}, 0)
    ensures e.Some? ==> e.value.ChartCopy?
    ensures fs.reliable ==> (e == None <==> IsDir(t, chart) && ChartFits(t, service))
  {
    ghost var t2 := fs.tree;
    var target := ChartTarget(dir, service.name);
    assert Under(dir, target);
    if Under(chart, target) { Comparable(chart, dir, target); }
    RoomForChart(t, t1, t2, dir, service);
    assert At(t2, chart) == At(t, chart);
    var failed := fs.CopyDir(chart, target);
    if failed.Some? {
      return Some(ChartCopy(failed.value));
    }
    AfterChart(t, t2, fs.tree, dir, service, chart, stages);
    e := None;
  }

  /** Lines 71-80: a stage whose directory for the service `Stat` finds is copied. */
  method DeliverStage(fs: FileSystem, dir: Path, service: Directory, chart: Option<Path>, stages: seq<Directory>,
                      i: nat, ghost t: Tree, ghost copied: set<nat>)
    returns (e: Option<DeliveryError>, ghost copied': set<nat>)
    requires DistinctNames(stages) && i < |stages| && Apart(stages[i].path, dir) && i !in copied && WellFormed(t)
    requires Copying(t, fs.tree, dir, service, chart, stages, copied, i)
    modifies fs
    ensures e == None ==> Copying(t, fs.tree, dir, service, chart, stages, copied', i + 1)
    ensures copied' == copied || copied' == copied + {i}
    ensures e == None && fs.reliable ==> copied' == copied + {i}
    ensures e.Some? ==> e.value.StageCopy? && e.value.cause != DestinationExists
    ensures fs.reliable ==> (e == None <==> StageDeliverable(t, dir, service.name, stages[i]))
  {
    ghost var now := fs.tree;
    RoomForStage(t, now, dir, service, chart, stages, copied, i);
    var src, dst := stages[i].path + [service.name], StageDir(dir, stages[i].name, service.name);
    assert Under(stages[i].path, src);
    SourceSame(t, now, dir, stages[i].path, src);
    assert At(now, src) == At(t, src);
    var found := fs.Stat(src);
    if found {
      assert Under(dir, dst);
      if Under(src, dst) { Comparable(stages[i].path, dir, dst); }
      var failed := fs.CopyDir(src, dst);
      if failed.Some? {
        return Some(StageCopy(failed.value)), copied;
      }
      AfterStage(t, now, fs.tree, dir, service, chart, stages, copied, i);
      return None, copied + {i};
    } else if src !in fs.tree || fs.tree[src].Symlink? {
      EmptyStage(t, now, dir, service, chart, stages, copied, i);
      return None, copied + {i};
    }
    return None, copied;
  }

  /**
   The copies for one service (lines 54-81). `copied` are the stages whose data reached the tree: all of them, unless
   `Stat` failed on one for reasons of its own, which the source takes for "no data".
   */
  method DeliverFiles(fs: FileSystem, dir: Path, service: Directory, meta: Metadata, stages: seq<Directory>)
    returns (e: Option<DeliveryError>, ghost copied: set<nat>)
    requires WellFormed(fs.tree) && IsDir(fs.tree, dir) && DistinctNames(stages)
    requires SourcesApart(dir, service, meta, stages)
    modifies fs
    ensures e == None ==> Copying(old(fs.tree), fs.tree, dir, service, meta.chartDir, stages, copied, |stages|)
    ensures e == None && fs.reliable ==> copied == AllBelow(|stages|)
    ensures e != Some(BaseCopy(DestinationExists)) && e != Some(StageCopy(DestinationExists)) && e != Some(PushFailed)
    ensures fs.reliable ==> (e == None <==> Deliverable(old(fs.tree), dir, service, meta, stages))
  {
    ghost var t := fs.tree;
    e := DeliverBase(fs, dir, service, meta, stages);
    copied := {};
    if e == None {
      e, copied := DeliverStages(fs, dir, service, meta.chartDir, stages, t);
    }
  }

  /** The loop over the stages (lines 70-81). */
  method DeliverStages(fs: FileSystem, dir: Path, service: Directory, chart: Option<Path>, stages: seq<Directory>,
                       ghost t: Tree)
    returns (e: Option<DeliveryError>, ghost copied: set<nat>)
    requires DistinctNames(stages) && StagesApart(dir, stages) && WellFormed(t)
    requires Copying(t, fs.tree, dir, service, chart, stages, {}, 0)
    modifies fs
    ensures e == None ==> Copying(t, fs.tree, dir, service, chart, stages, copied, |stages|)
    ensures e == None && fs.reliable ==> copied == AllBelow(|stages|)
    ensures e.Some? ==> e.value.StageCopy? && e.value.cause != DestinationExists
    ensures fs.reliable ==> (e == None <==> StagesDeliverable(t, dir, service.name, stages))
  {
    copied, e := {}, None;
    for i := 0 to |stages|
      invariant e == None && Copying(t, fs.tree, dir, service, chart, stages, copied, i)
      invariant copied <= AllBelow(i) && (fs.reliable ==> copied == AllBelow(i))
      invariant fs.reliable ==> StagesDeliverable(t, dir, service.name, stages[..i])
    {
      DeliverableStep(t, dir, service.name, stages, i);
      e, copied := DeliverStage(fs, dir, service, chart, stages, i, t, copied);
      if e.Some? {
        return;
      }
    }
    assert stages[..|stages|] == stages;
  }

  // ---------- Commits ----------

  lemma RecordService(t0: Tree, t: Tree, t': Tree, dir: Path, service: Directory, meta: Metadata,
                      stages: seq<Directory>, copied: set<nat>)
    requires SameBeside(t0, t, dir) && SourcesApart(dir, service, meta, stages)
    requires Delivered(t, t', dir, service, meta.chartDir, stages, copied)
    ensures RecordsService(SnapshotOf(t, dir), SnapshotOf(t', dir), t0, dir, service, meta.chartDir, stages, copied)
  {
    var prev := SnapshotOf(t, dir);
    forall r ensures At(SnapshotOf(t', dir), r) ==
                     DeliveredLeaf(At(prev, r), t0, dir, service, meta.chartDir, stages, copied, dir + r)
    {
      var p := dir + r;
      SnapshotAt(t, dir, r);
      SnapshotAt(t', dir, r);
      assert LeafAt(t', p) == DeliveredLeaf(LeafAt(t, p), t, dir, service, meta.chartDir, stages, copied, p);
      SameLeaf(LeafAt(t, p), t0, t, dir, service, meta, stages, copied, p);
    }
  }

  /** The sources read the same before the first service and before this one. */
  lemma SameLeaf(before: Option<Entry>, t0: Tree, t: Tree, dir: Path, service: Directory, meta: Metadata,
                 stages: seq<Directory>, copied: set<nat>, p: Path)
    requires SameBeside(t0, t, dir) && SourcesApart(dir, service, meta, stages)
    ensures DeliveredLeaf(before, t, dir, service, meta.chartDir, stages, copied, p) ==
            DeliveredLeaf(before, t0, dir, service, meta.chartDir, stages, copied, p)
  {
    if Under(BaseDir(dir, service.name), p) {
      SourceSame(t0, t, dir, service.path, Origin(service.path, BaseDir(dir, service.name), p));
      if meta.chartDir.Some? && Under(ChartTarget(dir, service.name), p) {
        SourceSame(t0, t, dir, meta.chartDir.value, Origin(meta.chartDir.value, ChartTarget(dir, service.name), p));
      }
    } else {
      var over := StageOver(dir, service.name, stages, p);
      if over.Some? {
        var i := over.value;
        var o := Origin(stages[i].path + [service.name], StageDir(dir, stages[i].name, service.name), p);
        assert Under(stages[i].path, o);
        SourceSame(t0, t, dir, stages[i].path, o);
      }
    }
  }
}
