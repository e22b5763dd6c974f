/**
 What a release holds, path by path: the files of its commit, of the stage branch and of the promoted values
 (gitops-operator/controllers/utils_artifactdelivery.go:54-82, promotion-service/pkg/utils/githandler.go:85-160).
 */
module ReleaseContents {
  import opened Wrappers
  import opened FileTree
  import opened GitClient
  import opened Delivery
  import opened DeliveryLog
  import opened DeliveryRun
  import opened ReleaseClone
  import opened ReleaseFlow
  import opened StageUpdate
  import HelmValues

  /** The file of the service's base: the chart's below `helm/<service>` if there is a chart, else the service's own. */
  lemma BaseSourceFile(t: Tree, dir: Path, service: Directory, chart: Option<Path>, rel: Path)
    ensures chart == None || !(["helm", service.name] <= rel) ==>
      BaseSource(t, dir, service, chart, rel) == FileAt(t, service.path + rel)
    ensures chart.Some? && ["helm", service.name] <= rel ==>
      BaseSource(t, dir, service, chart, rel) == FileAt(t, chart.value + rel[2..])
  {
    var base, target := BaseDir(dir, service.name), ChartTarget(dir, service.name);
    var p := base + rel;
    assert target == base + ["helm", service.name] && Under(base, p) && p[|base|..] == rel;
    UnderShifted(base, ["helm", service.name], rel);
    if ["helm", service.name] <= rel {
      assert rel == ["helm", service.name] + rel[2..];
      assert p == target + rel[2..];
    }
  }

  /** What the commit of a published service holds at every path. */
  ghost predicate CommitHolds(prev: Snapshot, next: Snapshot, t: Tree, service: Directory, chart: Option<Path>,
                              stages: seq<Directory>)
  {
    && (forall rel: Path :: chart == None || !(["helm", service.name] <= rel) ==>
          At(next, ["base", service.name] + rel) == FileAt(t, service.path + rel))
    && (forall rel: Path :: chart.Some? && ["helm", service.name] <= rel ==>
          At(next, ["base", service.name] + rel) == FileAt(t, chart.value + rel[2..]))
    && (forall i, rel: Path :: 0 <= i < |stages| ==>
          At(next, ["stages", stages[i].name, service.name] + rel) == FileAt(t, stages[i].path + [service.name] + rel))
    && forall r: Path :: Elsewhere(r, service, stages) ==> At(next, r) == At(prev, r)
  }

  /** The path is not in the service's base, nor in its directory on a listed stage. */
  ghost predicate Elsewhere(r: Path, service: Directory, stages: seq<Directory>) {
    && !Under(["base", service.name], r)
    && forall i :: 0 <= i < |stages| ==> !Under(["stages", stages[i].name, service.name], r)
  }

  lemma ElsewhereKept(prev: Snapshot, next: Snapshot, t: Tree, dir: Path, service: Directory, chart: Option<Path>,
                      stages: seq<Directory>, copied: set<nat>, r: Path)
    requires RecordsService(prev, next, t, dir, service, chart, stages, copied) && Elsewhere(r, service, stages)
    ensures At(next, r) == At(prev, r)
  {
    UnderShifted(dir, ["base", service.name], r);
    forall i | 0 <= i < |stages| ensures !Under(StageDir(dir, stages[i].name, service.name), dir + r) {
      UnderShifted(dir, ["stages", stages[i].name, service.name], r);
    }
    assert StageOver(dir, service.name, stages, dir + r) == None;
  }

  lemma UnderShifted(dir: Path, a: Path, r: Path)
    ensures Under(dir + a, dir + r) <==> Under(a, r)
  {
    assert |a| <= |r| ==> (dir + r)[..|dir + a|] == dir + r[..|a|];
    assert (dir + a)[|dir|..] == a;
  }

  lemma RecordHolds(prev: Snapshot, next: Snapshot, t: Tree, dir: Path, service: Directory, chart: Option<Path>,
                    stages: seq<Directory>)
    requires RecordsService(prev, next, t, dir, service, chart, stages, AllBelow(|stages|)) && DistinctNames(stages)
    ensures CommitHolds(prev, next, t, service, chart, stages)
  {
    forall rel: Path
      ensures At(next, ["base", service.name] + rel) == BaseSource(t, dir, service, chart, rel)
    {
      DeliveredBase(next, prev, t, dir, service, chart, stages, AllBelow(|stages|), rel);
    }
    forall rel: Path | chart == None || !(["helm", service.name] <= rel)
      ensures At(next, ["base", service.name] + rel) == FileAt(t, service.path + rel)
    {
      BaseSourceFile(t, dir, service, chart, rel);
    }
    forall rel: Path | chart.Some? && ["helm", service.name] <= rel
      ensures At(next, ["base", service.name] + rel) == FileAt(t, chart.value + rel[2..])
    {
      BaseSourceFile(t, dir, service, chart, rel);
    }
    forall i, rel: Path | 0 <= i < |stages|
      ensures At(next, ["stages", stages[i].name, service.name] + rel) ==
              FileAt(t, stages[i].path + [service.name] + rel)
    {
      DeliveredStage(next, prev, t, dir, service, chart, stages, AllBelow(|stages|), i, rel);
    }
    forall r: Path | Elsewhere(r, service, stages) ensures At(next, r) == At(prev, r) {
      ElsewhereKept(prev, next, t, dir, service, chart, stages, AllBelow(|stages|), r);
    }
  }

  /** The commit of every service that a run on a reliable file system has published, path by path. */
  lemma PublishedHolds(r: Run, order: seq<Directory>, now: State, log: seq<Visited>, e: Option<DeliveryError>, i: nat)
    requires Outcome(r, order, now, log, e) && r.filesReliable && DistinctNames(r.stages)
    requires i < |RecordsDone(log, e)|
    ensures var s, k := RecordsDone(log, e)[i].service, |r.g.commits| + i;
      && 0 < k < |now.g.commits| && s in r.services
      && CommitHolds(now.g.commits[k - 1], now.g.commits[k], r.t, s, r.services[s].chartDir, r.stages)
  {
    var rec, k := RecordsDone(log, e)[i], |r.g.commits| + i;
    RunRecorded(r, order, now, log, e);
    assert CommitRecords(r, now.g.commits, rec, k);
    AllCopied(r, order, now, log, e, i);
    RecordHolds(now.g.commits[k - 1], now.g.commits[k], r.t, r.dir, rec.service, r.services[rec.service].chartDir,
                r.stages);
  }

  lemma AllCopied(r: Run, order: seq<Directory>, now: State, log: seq<Visited>, e: Option<DeliveryError>, i: nat)
    requires Outcome(r, order, now, log, e) && r.filesReliable && i < |RecordsDone(log, e)|
    ensures RecordsDone(log, e)[i].copied == AllBelow(|r.stages|)
  {}

  /**
   When a service can be delivered: its directory is there, and the chart's if it names one; nothing stands where the
   chart goes, nor a file where the service's directories go; and each stage either has no data for it or has a
   directory.
   */
  lemma DeliverableExactly(t: Tree, dir: Path, service: Directory, meta: Metadata, stages: seq<Directory>)
    ensures Deliverable(t, dir, service, meta, stages) <==>
      && At(t, service.path) == Some(Dir)
      && (meta.chartDir.Some? ==>
            && At(t, meta.chartDir.value) == Some(Dir) && FileAt(t, service.path + ["helm"]) == None
            && LinkOrNothing(At(t, service.path + ["helm", service.name])))
      && LeafAt(t, dir + ["base"]) == None && forall i :: 0 <= i < |stages| ==> RoomFor(t, dir, service.name, stages[i])
  {
    forall i | 0 <= i < |stages|
      ensures RoomFor(t, dir, service.name, stages[i]) <==>
              NoStageFile(t, dir, stages[i].name) && StageDeliverable(t, dir, service.name, stages[i])
    {}
  }

  /** No file stands at the stage's directory; the stage has no data for the service, or a directory and the room. */
  predicate RoomFor(t: Tree, dir: Path, svc: string, stage: Directory) {
    var data, roots, root := At(t, stage.path + [svc]), dir + ["stages"], dir + ["stages", stage.name];
    && FileAt(t, roots) == None && FileAt(t, root) == None
    && (LinkOrNothing(data) || (data == Some(Dir) && LeafAt(t, roots) == None && LeafAt(t, root) == None))
  }

  predicate LinkOrNothing(e: Option<Entry>) {
    e == None || e.value.Symlink?
  }

  /** A service without any data for a stage can be promoted there when nothing stands in the way of its base. */
  lemma NoStageDataPromotable(t: Tree, dir: Path, service: Directory, chart: Option<Path>, stage: Directory)
    requires RootsFree(t, dir, stage.name) && At(t, service.path) == Some(Dir)
    requires forall rel: Path :: FileAt(t, stage.path + [service.name] + rel) == None
    ensures Promotable(t, dir, service, chart, stage)
  {
    BaseSourceFile(t, dir, service, chart, []);
    assert service.path + [] == service.path;
    assert forall rel: Path :: StageSource(t, stage, service.name, rel) == None;
  }

  // ---------- The stage branch ----------

  /** On the stage branch a file of the stage's own wins, then one of the chart, then one of the service. */
  lemma SourceFileExactly(t: Tree, dir: Path, s: Directory, chart: Option<Path>, stages: seq<Directory>, j: nat,
                          rel: Path)
    requires j < |stages|
    ensures var own := FileAt(t, stages[j].path + [s.name] + rel);
      && (own.Some? ==> SourceFile(t, dir, s, chart, stages, j, rel) == own)
      && (own == None && chart.Some? && ["helm", s.name] <= rel ==>
            SourceFile(t, dir, s, chart, stages, j, rel) == FileAt(t, chart.value + rel[2..]))
      && (own == None && (chart == None || !(["helm", s.name] <= rel)) ==>
            SourceFile(t, dir, s, chart, stages, j, rel) == FileAt(t, s.path + rel))
  {
    BaseSourceFile(t, dir, s, chart, rel);
  }

  // ---------- The promoted values ----------

  /** The mapping that the file at `p` holds in the code repository. */
  function FieldsOf(c: Codec, t: Tree, p: Path): Option<Fields> {
    if p in t && t[p].File? then c.parse(t[p].content) else None
  }

  /** The values come from the stage's file, and from the base's: the chart's if there is one, else the service's. */
  lemma SourceValuesExactly(c: Codec, t: Tree, dir: Path, s: Directory, chart: Option<Path>, stages: seq<Directory>,
                            j: nat)
    requires j < |stages|
    ensures var rel := ["helm", s.name, "values.yaml"];
      var own := FieldsOf(c, t, stages[j].path + [s.name] + rel);
      var base := if chart.Some? then FieldsOf(c, t, chart.value + ["values.yaml"]) else FieldsOf(c, t, s.path + rel);
      SourceValues(c, t, dir, s, chart, stages, j) ==
      if own == None then base
      else if base == None then own
      else Some(HelmValues.MergeTop(own.value, base.value))
  {
    var rel := ["helm", s.name, "values.yaml"];
    BaseSourceFile(t, dir, s, chart, rel);
    assert ["helm", s.name] <= rel && rel[2..] == ["values.yaml"];
  }

  /** A scalar in the stage's values file is found at its path in the merged values, whatever the base says. */
  lemma StageScalarArrives(c: Codec, t: Tree, dir: Path, s: Directory, chart: Option<Path>, stages: seq<Directory>,
                           j: nat, own: Fields, path: seq<string>)
    requires j < |stages|
    requires FieldsOf(c, t, stages[j].path + [s.name] + ["helm", s.name, "values.yaml"]) == Some(own)
    requires var v := HelmValues.At(HelmValues.Map(own), path); v.Some? && v.value.Scalar?
    ensures SourceValues(c, t, dir, s, chart, stages, j).Some?
    ensures HelmValues.At(HelmValues.Map(SourceValues(c, t, dir, s, chart, stages, j).value), path) ==
            HelmValues.At(HelmValues.Map(own), path)
  {
    SourceValuesExactly(c, t, dir, s, chart, stages, j);
    var base := if chart.Some? then FieldsOf(c, t, chart.value + ["values.yaml"])
                else FieldsOf(c, t, s.path + ["helm", s.name, "values.yaml"]);
    if base.Some? { HelmValues.StageScalarSurvives(own, base.value, path); }
  }
}
