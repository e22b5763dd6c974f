/**
 From the code repository to the stage branch: what the artifact delivery records under a release tag is what the
 promotion of that tag puts on the stage branch.
 */
module ReleaseFlow {
  import opened Wrappers
  import opened FileTree
  import opened GitClient
  import opened ReleaseTag
  import opened Delivery
  import opened DeliveryLog
  import opened DeliveryRun
  import opened Promotion
  import opened StageUpdate
  import opened ReleaseClone
  import HelmValues
  import opened Placeholder

  /**
   The file of the code repository that belongs at `rel` of the service on stage `i`: the stage's own, else the base's.
   */
  function SourceFile(t: Tree, dir: Path, service: Directory, chart: Option<Path>, stages: seq<Directory>, i: nat,
                      rel: Path): Option<Entry>
    requires i < |stages|
  {
    var own := StageSource(t, stages[i], service.name, rel);
    if own.Some? then own else BaseSource(t, dir, service, chart, rel)
  }

  /**
   `next` is the commit the delivery tagged, `u` a tree with a clone of it at `master`. Every promoted file, the values
   file apart, is the one the code repository holds for that stage.
   */
  lemma DeliveredIsPromoted(prev: Snapshot, next: Snapshot, t: Tree, dir: Path, service: Directory, chart: Option<Path>,
                            stages: seq<Directory>, copied: set<nat>, i: nat, u: Tree, master: Path, c: Codec,
                            before: Snapshot, after: Snapshot, version: string, rel: Path)
    requires RecordsService(prev, next, t, dir, service, chart, stages, copied)
    requires DistinctNames(stages) && i < |stages| && i in copied
    requires SnapshotOf(u, master) == next
    requires var base, over := BaseDir(master, service.name), StageDir(master, stages[i].name, service.name);
      Movable(u, base, over) && Promotes(c, u, before, after, base, over, service.name, version)
    requires rel != ["helm", service.name, "values.yaml"]
    ensures At(after, [service.name] + rel) == SourceFile(t, dir, service, chart, stages, i, rel)
  {
    var base, over := BaseDir(master, service.name), StageDir(master, stages[i].name, service.name);
    DeliveredBase(next, prev, t, dir, service, chart, stages, copied, rel);
    DeliveredStage(next, prev, t, dir, service, chart, stages, copied, i, rel);
    ClonedLeaf(u, master, ["base", service.name], rel);
    ClonedLeaf(u, master, ["stages", stages[i].name, service.name], rel);
    StageFirst(u, base, over, rel);
    PromotedAt(c, u, before, after, base, over, service.name, version, rel);
  }

  /** Without clashes the overlay takes the stage's leaf if there is one, else the base's. */
  lemma StageFirst(u: Tree, base: Path, over: Path, rel: Path)
    requires Movable(u, base, over)
    ensures PromotedLeaf(u, base, over, rel) ==
            if LeafAt(u, over + rel).Some? then LeafAt(u, over + rel) else LeafAt(u, base + rel)
  {
    assert Under(base, base + rel) && Origin(over, base, base + rel) == over + rel;
  }

  lemma PromotedAt(c: Codec, u: Tree, before: Snapshot, after: Snapshot, base: Path, over: Path, svc: string,
                   version: string, rel: Path)
    requires Promotes(c, u, before, after, base, over, svc, version) && rel != ["helm", svc, "values.yaml"]
    ensures At(after, [svc] + rel) == PromotedLeaf(u, base, over, rel)
  {
    assert Under([svc], [svc] + rel) && ([svc] + rel)[1..] == rel;
  }

  // ---------- From the run to the stage branch ----------

  /**
   A service that the run published, whether it went through or stopped later. No later one took the same tag; the one
   at which it stopped did not either, if git may fail for no reason.
   */
  ghost predicate Releases(r: Run, order: seq<Directory>, now: State, log: seq<Visited>, e: Option<DeliveryError>,
                           i: nat)
  {
    && Outcome(r, order, now, log, e)
    && var recs := RecordsDone(log, e);
    && i < |recs| && LastWithTag(recs, i, r.services)
    && (e.Some? && !r.gitReliable ==>
      RecTag(recs[i], r.services) != TagOf(Last(log).service, r.services[Last(log).service]))
  }

  /** A service is recorded once. */
  lemma {:induction false} DistinctRecords(log: seq<Visited>)
    requires forall i, j :: 0 <= i < j < |log| ==> log[i].service != log[j].service
    ensures var recs := RecordsOf(log); forall i, j :: 0 <= i < j < |recs| ==> recs[i].service != recs[j].service
  {
    if log != [] {
      var front, recs := Front(log), RecordsOf(Front(log));
      DistinctRecords(front);
      forall i | 0 <= i < |recs| ensures recs[i].service != Last(log).service {
        var k := RecordVisited(front, i);
        assert front[k] == log[k];
      }
      assert forall i :: 0 <= i < |RecordsOf(log)| ==>
        if i < |recs| then RecordsOf(log)[i] == recs[i] else RecordsOf(log)[i].service == Last(log).service;
    }
  }

  lemma RecordVisited(log: seq<Visited>, i: nat) returns (k: nat)
    requires i < |RecordsOf(log)|
    ensures k < |log| && log[k].service == RecordsOf(log)[i].service
  {
    var s := RecordsOf(log)[i].service;
    RecordsAreVisits(log, s);
    assert RecordsOf(log)[i].service == s;
    k :| 0 <= k < |log| && log[k].service == s;
  }

  /** With distinct tags every service that a run has published is released under its tag. */
  lemma DistinctTagsRelease(r: Run, order: seq<Directory>, now: State, log: seq<Visited>, e: Option<DeliveryError>,
                            i: nat)
    requires Outcome(r, order, now, log, e) && OrderOf(order, r.services) && DistinctTags(r.services)
    requires i < |RecordsDone(log, e)|
    ensures Releases(r, order, now, log, e, i) && RecordsDone(log, e)[i].service in r.services
  {
    DistinctVisits(order, log);
    LogDecides(r.g, log, r.services);
    ReleasedOnce(r, log, VisitsDone(log, e), i);
  }

  lemma ReleasedOnce(r: Run, log: seq<Visited>, done: seq<Visited>, i: nat)
    requires DecidedAtStart(r.g, r.services, log) && done <= log && DistinctTags(r.services)
    requires forall k, m :: 0 <= k < m < |log| ==> log[k].service != log[m].service
    requires i < |RecordsOf(done)|
    ensures LastWithTag(RecordsOf(done), i, r.services) && RecordsOf(done)[i].service in r.services
    ensures |done| < |log| ==>
      Last(log).service in r.services &&
      RecTag(RecordsOf(done)[i], r.services) != TagOf(Last(log).service, r.services[Last(log).service])
  {
    assert forall k :: 0 <= k < |done| ==> done[k] == log[k];
    DistinctRecords(done);
    RecordsKnown(r, log, done);
    LastOfItsTag(r, RecordsOf(done), i);
    if |done| < |log| {
      var k := RecordVisited(done, i);
      assert log[k] == done[k] && FromStart(r.g, r.services, log, |log| - 1);
    }
  }

  lemma RecordsKnown(r: Run, log: seq<Visited>, done: seq<Visited>)
    requires DecidedAtStart(r.g, r.services, log) && done <= log
    ensures forall k :: 0 <= k < |RecordsOf(done)| ==> RecordsOf(done)[k].service in r.services
  {
    forall k | 0 <= k < |RecordsOf(done)| ensures RecordsOf(done)[k].service in r.services {
      var m := RecordVisited(done, k);
      assert FromStart(r.g, r.services, log, m) && done[m] == log[m];
    }
  }

  lemma DistinctVisits(order: seq<Directory>, log: seq<Visited>)
    requires (forall i, j :: 0 <= i < j < |order| ==> order[i] != order[j]) && ServicesOf(log) <= order
    ensures forall i, j :: 0 <= i < j < |log| ==> log[i].service != log[j].service
  {
    assert forall i :: 0 <= i < |log| ==> ServicesOf(log)[i] == order[i] == log[i].service;
  }

  lemma LastOfItsTag(r: Run, recs: seq<Record>, i: nat)
    requires DistinctTags(r.services) && i < |recs|
    requires forall k :: 0 <= k < |recs| ==> recs[k].service in r.services
    requires forall k, m :: 0 <= k < m < |recs| ==> recs[k].service != recs[m].service
    ensures LastWithTag(recs, i, r.services)
  {}

  /** After the run, the tag of a published service names the commit that records this service. */
  lemma TagNamesService(r: Run, order: seq<Directory>, now: State, log: seq<Visited>, e: Option<DeliveryError>, i: nat)
    requires Releases(r, order, now, log, e, i)
    ensures NamesService(r, now.g, RecordsDone(log, e), i)
  {
    var recs := RecordsDone(log, e);
    if e.Some? {
      StoppedCommits(r, now, log, i);
      StoppedTag(r, now, log, RecTag(recs[i], r.services));
    } else {
      CompletedCommits(r, now, log, i);
    }
    RecordNamed(r, now.g, recs, i);
  }

  /** The tag of the record names its commit, and this records the service. */
  ghost predicate NamesService(r: Run, g: Git, recs: seq<Record>, i: nat) {
    && i < |recs| && TagAt(g.upstream.tags, RecTag(recs[i], r.services)) == Some(OnBranch(|r.g.commits| + i))
    && CommitRecords(r, g.commits, recs[i], |r.g.commits| + i)
  }

  /** Commit `k` is the one before it with the service recorded. */
  ghost predicate CommitRecords(r: Run, commits: seq<Snapshot>, rec: Record, k: nat) {
    0 < k < |commits| && RecordsNext(commits[k - 1], commits[k], rec, r.t, r.dir, r.services, r.stages)
  }

  lemma RecordNamed(r: Run, g: Git, recs: seq<Record>, i: nat)
    requires i < |recs| && LastWithTag(recs, i, r.services)
    requires var tag := RecTag(recs[i], r.services);
      TagAt(g.upstream.tags, tag) == TagAt(TagsAfter(r.g.tags, |r.g.commits|, recs, r.services), tag)
    ensures TagAt(g.upstream.tags, RecTag(recs[i], r.services)) == Some(OnBranch(|r.g.commits| + i))
  {
    TagsNameCommits(r.g.tags, |r.g.commits|, recs, r.services, i);
  }

  lemma CompletedCommits(r: Run, now: State, log: seq<Visited>, i: nat)
    requires Completed(r, now, log) && i < |RecordsOf(log)|
    ensures CommitRecords(r, now.g.commits, RecordsOf(log)[i], |r.g.commits| + i)
    ensures now.g.upstream.tags == TagsAfter(r.g.tags, |r.g.commits|, RecordsOf(log), r.services)
  {}

  lemma StoppedTag(r: Run, now: State, log: seq<Visited>, tag: string)
    requires Interrupted(r, now.g, log)
    requires !r.gitReliable ==> tag != TagOf(Last(log).service, r.services[Last(log).service])
    ensures TagAt(now.g.upstream.tags, tag) ==
            TagAt(TagsAfter(r.g.tags, |r.g.commits|, RecordsBefore(log), r.services), tag)
  {}

  lemma StoppedCommits(r: Run, now: State, log: seq<Visited>, i: nat)
    requires Interrupted(r, now.g, log) && i < |RecordsBefore(log)|
    ensures CommitRecords(r, now.g.commits, RecordsBefore(log)[i], |r.g.commits| + i)
  {
    var k, all := |r.g.commits| + i, |r.g.commits| + |RecordsBefore(log)|;
    assert now.g.commits[..all][k] == now.g.commits[k] && now.g.commits[..all][k - 1] == now.g.commits[k - 1];
  }

  /** `u` holds at `master` a fresh clone of the commit the upstream repository has under the tag. */
  ghost predicate ClonesTag(g: Git, tag: Option<string>, u: Tree, master: Path) {
    && tag.Some? && tag.value in g.upstream.tags
    && var id := g.upstream.tags[tag.value];
    id.OnBranch? && id.index < |g.commits| && FreshClone(u, master, g.commits[id.index])
  }

  /** The service was published with its data for stage `j` in a run that started from a clean clone. */
  ghost predicate PublishedRelease(r: Run, order: seq<Directory>, now: State, log: seq<Visited>,
                                   e: Option<DeliveryError>, i: nat, j: nat)
  {
    && Releases(r, order, now, log, e, i) && DistinctNames(r.stages) && CleanHead(r.g, r.t, r.dir)
    && j in RecordsDone(log, e)[i].copied && j < |r.stages| && RecordsDone(log, e)[i].service in r.services
  }

  /** And `u` holds a fresh clone of the tag that an event for its version names. */
  ghost predicate ClonesRelease(r: Run, order: seq<Directory>, now: State, log: seq<Visited>, e: Option<DeliveryError>,
                                i: nat, j: nat, user: Labels, u: Tree, master: Path)
  {
    && PublishedRelease(r, order, now, log, e, i, j) && VERSION !in user && CONFIG_VERSION !in user
    && var s := RecordsDone(log, e)[i].service;
    var labels := EventLabels(r.services[s].version, r.services[s].configVersion, user);
    ClonesTag(now.g, ClonedTag(s.name, labels), u, master)
  }

  /** The clone of the labelled tag is the commit that records the service. */
  lemma ReleaseCloned(r: Run, order: seq<Directory>, now: State, log: seq<Visited>, e: Option<DeliveryError>,
                      i: nat, j: nat, user: Labels, u: Tree, master: Path)
    returns (prev: Snapshot)
    requires ClonesRelease(r, order, now, log, e, i, j, user, u, master)
    ensures var rec := RecordsDone(log, e)[i];
      RecordsService(prev, SnapshotOf(u, master), r.t, r.dir, rec.service, r.services[rec.service].chartDir, r.stages,
                     rec.copied)
    ensures FreshClone(u, master, now.g.commits[|r.g.commits| + i])
  {
    var s := RecordsDone(log, e)[i].service;
    TagNamesService(r, order, now, log, e, i);
    PublishedIsCloned(s.name, r.services[s].version, r.services[s].configVersion, user);
    prev := now.g.commits[|r.g.commits| + i - 1];
  }

  /** From the head at the start, each commit records the next service. */
  ghost predicate AllRecorded(r: Run, commits: seq<Snapshot>, recs: seq<Record>) {
    r.g.commits <= commits && forall k :: 0 <= k < |recs| ==> CommitRecords(r, commits, recs[k], |r.g.commits| + k)
  }

  lemma RunRecorded(r: Run, order: seq<Directory>, now: State, log: seq<Visited>, e: Option<DeliveryError>)
    requires Outcome(r, order, now, log, e)
    ensures AllRecorded(r, now.g.commits, RecordsDone(log, e))
  {
    var recs := RecordsDone(log, e);
    forall k | 0 <= k < |recs| ensures CommitRecords(r, now.g.commits, recs[k], |r.g.commits| + k) {
      if e.Some? {
        StoppedCommits(r, now, log, k);
      } else {
        CompletedCommits(r, now, log, k);
      }
    }
    GrownCommits(r, order, now, log, e);
  }

  lemma GrownCommits(r: Run, order: seq<Directory>, now: State, log: seq<Visited>, e: Option<DeliveryError>)
    requires Outcome(r, order, now, log, e)
    ensures r.g.commits <= now.g.commits
  {}

  /** From commit `n` on, the way to the service directories is as free as in the commit before. */
  ghost predicate RootsStay(commits: seq<Snapshot>, n: nat, stage: string) {
    forall k: nat :: 0 < n <= k < |commits| ==> (FreeRoots(commits[k], stage) <==> FreeRoots(commits[k - 1], stage))
  }

  lemma RootsNext(r: Run, commits: seq<Snapshot>, rec: Record, k: nat, stage: string)
    requires CommitRecords(r, commits, rec, k)
    ensures FreeRoots(commits[k], stage) <==> FreeRoots(commits[k - 1], stage)
  {
    RootsKeptFree(commits[k - 1], commits[k], r.t, r.dir, rec.service, r.services[rec.service].chartDir, r.stages,
                  rec.copied, stage);
  }

  lemma RootsOfRun(r: Run, commits: seq<Snapshot>, recs: seq<Record>, stage: string)
    requires AllRecorded(r, commits, recs) && |commits| >= |r.g.commits| + |recs|
    ensures RootsStay(commits[..|r.g.commits| + |recs|], |r.g.commits|, stage)
  {
    var n := |r.g.commits|;
    forall k: nat | 0 < n <= k < n + |recs|
      ensures FreeRoots(commits[k], stage) <==> FreeRoots(commits[k - 1], stage)
    {
      RootsNext(r, commits, recs[k - n], k, stage);
    }
  }

  lemma {:induction false} RootsFromStart(commits: seq<Snapshot>, n: nat, k: nat, stage: string)
    requires RootsStay(commits, n, stage) && 0 < n <= k + 1 <= |commits|
    ensures FreeRoots(commits[k], stage) <==> FreeRoots(commits[n - 1], stage)
  {
    if n <= k { RootsFromStart(commits, n, k - 1, stage); }
  }

  lemma RecordedLength(r: Run, commits: seq<Snapshot>, recs: seq<Record>)
    requires AllRecorded(r, commits, recs)
    ensures |commits| >= |r.g.commits| + |recs|
  {
    if recs != [] { assert CommitRecords(r, commits, recs[|recs| - 1], |r.g.commits| + |recs| - 1); }
  }

  lemma StartCommit(r: Run, stage: string)
    requires CleanHead(r.g, r.t, r.dir)
    ensures |r.g.commits| > 0
    ensures FreeRoots(r.g.commits[|r.g.commits| - 1], stage) <==> RootsFree(r.t, r.dir, stage)
  {
    RootsOfSnapshot(r.t, r.dir, stage);
  }

  lemma RootsRecordedSince(r: Run, commits: seq<Snapshot>, recs: seq<Record>, k: nat, stage: string)
    requires AllRecorded(r, commits, recs) && k < |recs| && r.g.commits != []
    ensures |r.g.commits| + k < |commits|
    ensures FreeRoots(commits[|r.g.commits| + k], stage) <==> FreeRoots(r.g.commits[|r.g.commits| - 1], stage)
  {
    RecordedLength(r, commits, recs);
    RootsOfRun(r, commits, recs, stage);
    RootsOfPrefix(commits, r.g.commits, |recs|, k, stage);
  }

  /** What stood above the service directories at the start still does in every commit of the run. */
  lemma RootsOfCommits(r: Run, commits: seq<Snapshot>, recs: seq<Record>, k: nat, stage: string)
    requires AllRecorded(r, commits, recs) && k < |recs| && CleanHead(r.g, r.t, r.dir)
    ensures |r.g.commits| + k < |commits|
    ensures FreeRoots(commits[|r.g.commits| + k], stage) <==> RootsFree(r.t, r.dir, stage)
  {
    StartCommit(r, stage);
    RootsRecordedSince(r, commits, recs, k, stage);
  }

  lemma RootsOfPrefix(commits: seq<Snapshot>, start: seq<Snapshot>, m: nat, k: nat, stage: string)
    requires start <= commits && 0 < |start| && k < m && |start| + m <= |commits|
    requires RootsStay(commits[..|start| + m], |start|, stage)
    ensures FreeRoots(commits[|start| + k], stage) <==> FreeRoots(start[|start| - 1], stage)
  {
    RootsFromStart(commits[..|start| + m], |start|, |start| + k, stage);
    assert commits[|start| - 1] == start[|start| - 1];
  }

  /** The clone can be moved to the stage branch exactly if the code repository's files allow it. */
  lemma ReleaseMovableExactly(r: Run, order: seq<Directory>, now: State, log: seq<Visited>, e: Option<DeliveryError>,
                              i: nat, j: nat, user: Labels, u: Tree, master: Path)
    requires ClonesRelease(r, order, now, log, e, i, j, user, u, master)
    ensures var s, stage := RecordsDone(log, e)[i].service, r.stages[j];
      Movable(u, BaseDir(master, s.name), StageDir(master, stage.name, s.name)) <==>
      Promotable(r.t, r.dir, s, r.services[s].chartDir, stage)
  {
    var rec, n := RecordsDone(log, e)[i], |r.g.commits| + i;
    var prev := ReleaseCloned(r, order, now, log, e, i, j, user, u, master);
    RunRecorded(r, order, now, log, e);
    assert CommitRecords(r, now.g.commits, rec, n);
    RootsOfCommits(r, now.g.commits, RecordsDone(log, e), i, r.stages[j].name);
    var chart := r.services[rec.service].chartDir;
    ClonedLeaves(prev, SnapshotOf(u, master), r.t, r.dir, rec.service, chart, r.stages, rec.copied, j, u, master);
    ClonedMovable(now.g.commits[n], r.t, r.dir, rec.service, chart, r.stages[j], u, master);
  }

  /** The promotion of the release to stage `j`: the clone, moved and committed, where its files allow that. */
  ghost predicate PromotesRelease(r: Run, order: seq<Directory>, now: State, log: seq<Visited>,
                                  e: Option<DeliveryError>, i: nat, j: nat, user: Labels, u: Tree, master: Path,
                                  c: Codec, before: Snapshot, after: Snapshot)
  {
    && ClonesRelease(r, order, now, log, e, i, j, user, u, master)
    && var s, stage := RecordsDone(log, e)[i].service, r.stages[j];
    && Promotable(r.t, r.dir, s, r.services[s].chartDir, stage)
    && Promotes(c, u, before, after, BaseDir(master, s.name), StageDir(master, stage.name, s.name), s.name,
                r.services[s].version)
  }

  /**
   A service published by a run, promoted to a stage by an event for its version: every file on the stage branch, the
   values file apart, is the one the code repository held for that stage when the run started.
   */
  lemma ReleasedIsPromoted(r: Run, order: seq<Directory>, now: State, log: seq<Visited>, e: Option<DeliveryError>,
                           i: nat, j: nat, user: Labels, u: Tree, master: Path, c: Codec, before: Snapshot,
                           after: Snapshot, rel: Path)
    requires PromotesRelease(r, order, now, log, e, i, j, user, u, master, c, before, after)
    requires rel != ["helm", RecordsDone(log, e)[i].service.name, "values.yaml"]
    ensures var s := RecordsDone(log, e)[i].service;
      At(after, [s.name] + rel) == SourceFile(r.t, r.dir, s, r.services[s].chartDir, r.stages, j, rel)
  {
    var rec := RecordsDone(log, e)[i];
    var meta := r.services[rec.service];
    var prev := ReleaseCloned(r, order, now, log, e, i, j, user, u, master);
    ReleaseMovableExactly(r, order, now, log, e, i, j, user, u, master);
    DeliveredIsPromoted(prev, SnapshotOf(u, master), r.t, r.dir, rec.service, meta.chartDir, r.stages, rec.copied, j, u,
                        master, c, before, after, meta.version, rel);
  }

  function LeafFields(c: Codec, e: Option<Entry>): Option<Fields> {
    if e.Some? && e.value.File? then c.parse(e.value.content) else None
  }

  /**
   The values of a service for stage `j` in the code repository: `MergeValues` of its base file and its stage file.
   */
  function SourceValues(c: Codec, t: Tree, dir: Path, s: Directory, chart: Option<Path>, stages: seq<Directory>,
                        j: nat): Option<Fields>
    requires j < |stages|
  {
    var rel := ["helm", s.name, "values.yaml"];
    assert Under(BaseDir(dir, s.name), BaseDir(dir, s.name) + rel);
    HelmValues.MergeValues(LeafFields(c, BaseLeaf(t, dir, s, chart, BaseDir(dir, s.name) + rel)),
                           LeafFields(c, FileAt(t, stages[j].path + [s.name] + rel)))
  }

  /** The clone's two values files are the delivered ones. */
  lemma ClonedValues(prev: Snapshot, t: Tree, dir: Path, service: Directory, chart: Option<Path>,
                     stages: seq<Directory>, copied: set<nat>, j: nat, u: Tree, master: Path, c: Codec)
    requires RecordsService(prev, SnapshotOf(u, master), t, dir, service, chart, stages, copied)
    requires DistinctNames(stages) && j < |stages| && j in copied
    ensures var base, over := BaseDir(master, service.name), StageDir(master, stages[j].name, service.name);
      && MergedFields(c, u, base, over, service.name) == SourceValues(c, t, dir, service, chart, stages, j)
      && var v := ValuesPath(over, service.name); v in u ==> !u[v].Symlink?
  {
    var rel := ["helm", service.name, "values.yaml"];
    var next := SnapshotOf(u, master);
    DeliveredBase(next, prev, t, dir, service, chart, stages, copied, rel);
    DeliveredStage(next, prev, t, dir, service, chart, stages, copied, j, rel);
    ClonedLeaf(u, master, ["base", service.name], rel);
    ClonedLeaf(u, master, ["stages", stages[j].name, service.name], rel);
    assert ValuesPath(BaseDir(master, service.name), service.name) == master + ["base", service.name] + rel;
    assert ValuesPath(StageDir(master, stages[j].name, service.name), service.name) ==
           master + ["stages", stages[j].name, service.name] + rel;
  }

  /**
   And the values file is some text that parses to the merge of the two source files, piece by piece, with the version
   in the place of every placeholder between the pieces.
   */
  lemma ReleasedValues(r: Run, order: seq<Directory>, now: State, log: seq<Visited>, e: Option<DeliveryError>,
                       i: nat, j: nat, user: Labels, u: Tree, master: Path, c: Codec, before: Snapshot, after: Snapshot)
    returns (text: string, xs: seq<string>)
    requires PromotesRelease(r, order, now, log, e, i, j, user, u, master, c, before, after) && c.RoundTrips()
    requires var s := RecordsDone(log, e)[i].service;
      SourceValues(c, r.t, r.dir, s, r.services[s].chartDir, r.stages, j).Some?
    ensures var s := RecordsDone(log, e)[i].service;
      && c.parse(text) == SourceValues(c, r.t, r.dir, s, r.services[s].chartDir, r.stages, j)
      && MadeOf(Some(File(text)), xs)
      && At(after, [s.name, "helm", s.name, "values.yaml"]) == Some(File(Joined(xs, r.services[s].version)))
  {
    var rec := RecordsDone(log, e)[i];
    var s := rec.service;
    var base, over := BaseDir(master, s.name), StageDir(master, r.stages[j].name, s.name);
    var prev := ReleaseCloned(r, order, now, log, e, i, j, user, u, master);
    ReleaseMovableExactly(r, order, now, log, e, i, j, user, u, master);
    ClonedValues(prev, r.t, r.dir, s, r.services[s].chartDir, r.stages, rec.copied, j, u, master, c);
    BaseStageApart(master, r.stages[j].name, s.name);
    PromotedValuesParse(c, u, base, over, s.name);
    text := ValuesBefore(c, u, base, over, s.name).value.content;
    ValuesCommitted(c, u, before, after, base, over, s.name, r.services[s].version);
    xs := FileMadeOf(Some(File(text)));
    FilledPieces(Some(File(text)), xs, r.services[s].version);
  }

  /** When neither source file parses, the file is promoted as it is, with the version filled in. */
  lemma ReleasedUnparsed(r: Run, order: seq<Directory>, now: State, log: seq<Visited>, e: Option<DeliveryError>,
                         i: nat, j: nat, user: Labels, u: Tree, master: Path, c: Codec, before: Snapshot,
                         after: Snapshot)
    requires PromotesRelease(r, order, now, log, e, i, j, user, u, master, c, before, after)
    requires var s := RecordsDone(log, e)[i].service;
      SourceValues(c, r.t, r.dir, s, r.services[s].chartDir, r.stages, j) == None
    ensures var s := RecordsDone(log, e)[i].service;
      var rel := ["helm", s.name, "values.yaml"];
      At(after, [s.name] + rel) ==
      Filled(SourceFile(r.t, r.dir, s, r.services[s].chartDir, r.stages, j, rel), r.services[s].version)
  {
    var rec := RecordsDone(log, e)[i];
    var s := rec.service;
    var prev := ReleaseCloned(r, order, now, log, e, i, j, user, u, master);
    ReleaseMovableExactly(r, order, now, log, e, i, j, user, u, master);
    UnparsedCommitted(prev, r.t, r.dir, s, r.services[s].chartDir, r.stages, rec.copied, j, u, master, c, before, after,
                      r.services[s].version);
  }

  lemma UnparsedCommitted(prev: Snapshot, t: Tree, dir: Path, s: Directory, chart: Option<Path>, stages: seq<Directory>,
                          copied: set<nat>, j: nat, u: Tree, master: Path, c: Codec, before: Snapshot, after: Snapshot,
                          version: string)
    requires RecordsService(prev, SnapshotOf(u, master), t, dir, s, chart, stages, copied)
    requires DistinctNames(stages) && j < |stages| && j in copied
    requires SourceValues(c, t, dir, s, chart, stages, j) == None
    requires var base, over := BaseDir(master, s.name), StageDir(master, stages[j].name, s.name);
      Movable(u, base, over) && Promotes(c, u, before, after, base, over, s.name, version)
    ensures var rel := ["helm", s.name, "values.yaml"];
      At(after, [s.name] + rel) == Filled(SourceFile(t, dir, s, chart, stages, j, rel), version)
  {
    var rel := ["helm", s.name, "values.yaml"];
    var base, over := BaseDir(master, s.name), StageDir(master, stages[j].name, s.name);
    ClonedValues(prev, t, dir, s, chart, stages, copied, j, u, master, c);
    ClonedLeaves(prev, SnapshotOf(u, master), t, dir, s, chart, stages, copied, j, u, master);
    StageFirst(u, base, over, rel);
    ValuesCommitted(c, u, before, after, base, over, s.name, version);
    assert [s.name] + rel == [s.name, "helm", s.name, "values.yaml"];
  }

  /**
   The update of the stage branch from a clone of the release succeeds if and only if the code repository's files allow
   it, and then puts them on the branch.
   */
  method PromoteRelease(fs: FileSystem, branch: StageBranch, c: Codec, s: Directory, stage: Directory, version: string,
                        master: Path, stageClone: Path, ghost r: Run, ghost order: seq<Directory>, ghost now: State,
                        ghost log: seq<Visited>, ghost e: Option<DeliveryError>, ghost i: nat, ghost j: nat,
                        ghost user: Labels)
    returns (ok: bool, ghost next: Snapshot)
    requires ClonesRelease(r, order, now, log, e, i, j, user, fs.tree, master)
    requires s == RecordsDone(log, e)[i].service && version == r.services[s].version && stage == r.stages[j]
    requires WellPlacedPromotion(fs.tree, master, stageClone, s.name, stage.name)
    requires branch.upstream != [] && branch.upstream[|branch.upstream| - 1] == SnapshotOf(fs.tree, stageClone)
    requires fs.reliable && branch.reliable
    modifies fs, branch
    ensures ok <==> Promotable(r.t, r.dir, s, r.services[s].chartDir, stage)
    ensures branch.upstream == if ok then old(branch.upstream) + [next] else old(branch.upstream)
    ensures ok ==> FilesOnBranch(next, r, s, j)
  {
    ghost var u, before := fs.tree, SnapshotOf(fs.tree, stageClone);
    ok, next := UpdateGitRepo(fs, branch, c, s.name, stage.name, version, master, stageClone);
    ReleaseUpdated(r, order, now, log, e, i, j, user, u, master, c, before, next, ok);
  }

  lemma ReleaseUpdated(r: Run, order: seq<Directory>, now: State, log: seq<Visited>, e: Option<DeliveryError>,
                       i: nat, j: nat, user: Labels, u: Tree, master: Path, c: Codec, before: Snapshot,
                       after: Snapshot, ok: bool)
    requires ClonesRelease(r, order, now, log, e, i, j, user, u, master)
    requires var s := RecordsDone(log, e)[i].service;
      var base, over := BaseDir(master, s.name), StageDir(master, r.stages[j].name, s.name);
      && (ok <==> Movable(u, base, over))
      && (ok ==> Promotes(c, u, before, after, base, over, s.name, r.services[s].version))
    ensures var s := RecordsDone(log, e)[i].service;
      && (ok <==> Promotable(r.t, r.dir, s, r.services[s].chartDir, r.stages[j]))
      && (ok ==> FilesOnBranch(after, r, s, j))
  {
    ReleaseMovableExactly(r, order, now, log, e, i, j, user, u, master);
    if ok { ReleasedFiles(r, order, now, log, e, i, j, user, u, master, c, before, after); }
  }

  /** Every file of the service on the stage branch, the values file apart, is the code repository's. */
  ghost predicate FilesOnBranch(after: Snapshot, r: Run, s: Directory, j: nat) {
    s in r.services && j < |r.stages| &&
    forall rel :: rel != ["helm", s.name, "values.yaml"] ==>
      At(after, [s.name] + rel) == SourceFile(r.t, r.dir, s, r.services[s].chartDir, r.stages, j, rel)
  }

  lemma ReleasedFiles(r: Run, order: seq<Directory>, now: State, log: seq<Visited>, e: Option<DeliveryError>,
                      i: nat, j: nat, user: Labels, u: Tree, master: Path, c: Codec, before: Snapshot, after: Snapshot)
    requires PromotesRelease(r, order, now, log, e, i, j, user, u, master, c, before, after)
    ensures FilesOnBranch(after, r, RecordsDone(log, e)[i].service, j)
  {
    var s := RecordsDone(log, e)[i].service;
    forall rel | rel != ["helm", s.name, "values.yaml"]
      ensures At(after, [s.name] + rel) == SourceFile(r.t, r.dir, s, r.services[s].chartDir, r.stages, j, rel)
    {
      ReleasedIsPromoted(r, order, now, log, e, i, j, user, u, master, c, before, after, rel);
    }
  }

  lemma ValuesCommitted(c: Codec, u: Tree, before: Snapshot, after: Snapshot, base: Path, over: Path, svc: string,
                        version: string)
    requires Promotes(c, u, before, after, base, over, svc, version)
    ensures At(after, [svc, "helm", svc, "values.yaml"]) == Filled(ValuesBefore(c, u, base, over, svc), version)
  {
    var r := [svc, "helm", svc, "values.yaml"];
    assert Under([svc], r) && r[1..] == ["helm", svc, "values.yaml"];
  }
}
