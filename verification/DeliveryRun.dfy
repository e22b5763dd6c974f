/**
 A run of the artifact delivery over all services: which are published, under which tag each commit is found, what every
 upstream state keeps, and exactly when the run fails (gitops-operator/controllers/utils_artifactdelivery.go:34-88).
 */
module DeliveryRun {
  import opened Wrappers
  import opened FileTree
  import opened GitClient
  import opened Delivery
  import opened DeliveryLog

  // ---------- The commits ----------

  /** From position `n` on, the commits are those of the published services, each made from the one before. */
  ghost predicate Chain(commits: seq<Snapshot>, n: nat, recs: seq<Record>, t: Tree, dir: Path, services: Services,
                        stages: seq<Directory>)
  {
    && 0 < n && |commits| == n + |recs|
    && forall i :: 0 <= i < |recs| ==>
      RecordsNext(commits[n + i - 1], commits[n + i], recs[i], t, dir, services, stages)
  }

  ghost predicate RecordsNext(prev: Snapshot, next: Snapshot, r: Record, t: Tree, dir: Path, services: Services,
                              stages: seq<Directory>)
  {
    && r.service in services
    && RecordsService(prev, next, t, dir, r.service, services[r.service].chartDir, stages, r.copied)
  }

  lemma ChainStep(commits: seq<Snapshot>, snap: Snapshot, n: nat, recs: seq<Record>, r: Record, t: Tree, dir: Path,
                  services: Services, stages: seq<Directory>)
    requires Chain(commits, n, recs, t, dir, services, stages) && commits != []
    requires RecordsNext(commits[|commits| - 1], snap, r, t, dir, services, stages)
    ensures Chain(commits + [snap], n, recs + [r], t, dir, services, stages)
  {}

  /**
   Every tag that is not as in `init` names a commit made since (from position `n`) that is on the upstream branch.
   */
  ghost predicate OnlyPushedCommits(init: Upstream, n: nat, u: Upstream) {
    init.head <= u.head &&
    forall t :: t in u.tags ==>
      TagAt(u.tags, t) == TagAt(init.tags, t) || (u.tags[t].OnBranch? && n <= u.tags[t].index <= u.head)
  }

  // ---------- The state of a run ----------

  /** A clean working tree at the head of a freshly pulled branch. */
  ghost predicate CleanHead(g: Git, t: Tree, dir: Path) {
    && WellFormed(t) && IsDir(t, dir)
    && Synced(g) && |g.commits| == g.upstream.head + 1
    && g.commits[g.upstream.head] == SnapshotOf(t, dir)
  }

  /** What a run is given: the working tree, the repository and its history at the start, and the inputs. */
  datatype Run = Run(dir: Path, services: Services, stages: seq<Directory>, t: Tree, g: Git, seen: seq<Upstream>,
                     listingWorks: bool, filesReliable: bool, gitReliable: bool)
  {
    /** The tag is safe: no service publishes under it, or it is annotated, found and not to be overwritten. */
    ghost predicate Keeps(tag: string) {
      forall s :: s in services && TagOf(s, services[s]) == tag ==>
        listingWorks && tag in g.tagObjects && !services[s].overwriteTag
    }

    /** Every tag of the services is found and none may be overwritten. */
    ghost predicate Idle() {
      listingWorks &&
      forall s :: s in services ==> TagOf(s, services[s]) in g.tagObjects && !services[s].overwriteTag
    }

    /** A reliable file system copies all of the service. */
    ghost predicate Copies(s: Directory) {
      s in services && Deliverable(t, dir, s, services[s], stages)
    }

    /** The service that comes at `i` cannot be published, by what was there at the start. */
    ghost predicate Fails(order: seq<Directory>, listed: seq<bool>, i: nat) {
      i < |order| && i < |listed| && !LeftAlone(g, services, order, listed, i) &&
      (!Copies(order[i]) || StuckAt(g, services, order, listed, i))
    }
  }

  datatype State = State(g: Git, tree: Tree, seen: seq<Upstream>)

  // ---------- What every upstream state keeps ----------

  /** Safe tags name what they named, and changed ones name commits that are on the branch. */
  ghost predicate Safe(r: Run, u: Upstream) {
    && OnlyPushedCommits(r.g.upstream, |r.g.commits|, u)
    && forall t :: r.Keeps(t) ==> TagAt(u.tags, t) == TagAt(r.g.upstream.tags, t)
  }

  ghost predicate AllSafe(r: Run, seen: seq<Upstream>) {
    |r.seen| <= |seen| && forall i :: |r.seen| <= i < |seen| ==> Safe(r, seen[i])
  }

  lemma SafeStep(r: Run, before: Upstream, now: Upstream, tag: string, index: nat)
    requires Between(before, now, tag, index) && |r.g.commits| <= index && Safe(r, before)
    requires r.Keeps(tag) ==> now == before
    ensures Safe(r, now)
  {
    var init := r.g.upstream;
    forall t | t in now.tags
      ensures TagAt(now.tags, t) == TagAt(init.tags, t) ||
              (now.tags[t].OnBranch? && |r.g.commits| <= now.tags[t].index <= now.head)
    {
      if t != tag || TagAt(now.tags, tag) == TagAt(before.tags, tag) {
        assert TagAt(now.tags, t) == TagAt(before.tags, t);
      }
    }
  }

  lemma AllSafeStep(r: Run, seen: seq<Upstream>, seen': seq<Upstream>, before: Upstream, tag: string, index: nat)
    requires AllSafe(r, seen) && |r.g.commits| <= index
    requires AllBetween(seen, seen', before, tag, index) && Safe(r, before)
    requires r.Keeps(tag) ==> seen' == seen
    ensures AllSafe(r, seen')
  {
    forall i | |r.seen| <= i < |seen'| ensures Safe(r, seen'[i]) {
      if i < |seen| {
        assert seen'[i] == seen[i];
      } else {
        SafeStep(r, before, seen'[i], tag, index);
      }
    }
  }

  // ---------- A run in progress ----------

  /** Safe upstream, at every moment. */
  ghost predicate SafeSoFar(r: Run, now: State) {
    Safe(r, now.g.upstream) && AllSafe(r, now.seen)
  }

  /** The leaves above the service directories are as they were. */
  ghost predicate SameRoots(t: Tree, now: Tree, dir: Path) {
    && LeafAt(now, dir + ["base"]) == LeafAt(t, dir + ["base"])
    && LeafAt(now, dir + ["stages"]) == LeafAt(t, dir + ["stages"])
    && forall s :: LeafAt(now, dir + ["stages", s]) == LeafAt(t, dir + ["stages", s])
  }

  /** The working tree of a run in progress. */
  ghost predicate TreeSoFar(r: Run, now: State) {
    CleanHead(now.g, now.tree, r.dir) && SameBeside(r.t, now.tree, r.dir) && SameRoots(r.t, now.tree, r.dir)
  }

  /** The published services are those of `recs`: one commit each, found under the service's tag. */
  ghost predicate PublishedSoFar(r: Run, g: Git, recs: seq<Record>) {
    && r.g.commits <= g.commits && Chain(g.commits, |r.g.commits|, recs, r.t, r.dir, r.services, r.stages)
    && g.tags == TagsAfter(r.g.tags, |r.g.commits|, recs, r.services)
    && g.tagObjects == ObjectsAfter(r.g.tagObjects, recs, r.services)
    && (r.filesReliable ==> forall c :: c in recs ==> c.copied == AllBelow(|r.stages|))
  }

  ghost predicate CopiedFrom(r: Run, log: seq<Visited>) {
    r.filesReliable ==> forall i :: 0 <= i < |log| && !log[i].skipped ==> r.Copies(log[i].service)
  }

  /** The visits of a run in progress. */
  ghost predicate VisitedSoFar(r: Run, flag: bool, log: seq<Visited>) {
    && Decided(r.g, log, r.services) && (r.listingWorks ==> AlwaysListed(log))
    && flag == FlagAfter(log) && FlagAgrees(log) && CopiedFrom(r, log)
  }

  ghost predicate Progress(r: Run, now: State, flag: bool, log: seq<Visited>) {
    && SafeSoFar(r, now) && TreeSoFar(r, now) && PublishedSoFar(r, now.g, RecordsOf(log))
    && VisitedSoFar(r, flag, log) && (r.Idle() ==> now == State(r.g, r.t, r.seen))
  }

  /** What one turn of the loop promises, on values. */
  ghost predicate Served(r: Run, was: State, now: State, e: Option<DeliveryError>, flag: bool, flag': bool, v: Visited)
  {
    && DecidedBy(was.g.tags, was.g.tagObjects, v, r.services)
    && (r.listingWorks ==> v.lookup != ListFailed)
    && var meta := r.services[v.service];
    var tag := TagOf(v.service, meta);
    && flag' == (if v.skipped then flag else StickyFlag(flag, v.lookup))
    && (v.skipped ==> e == None && now == was)
    && (!v.skipped && e == None ==>
      && Copying(was.tree, now.tree, r.dir, v.service, meta.chartDir, r.stages, v.copied, |r.stages|)
      && PublishedAs(was.g, now.g, SnapshotOf(now.tree, r.dir), tag) && flag' == !v.isNew)
    && (e == None && r.filesReliable ==> v.copied == AllBelow(|r.stages|))
    && (r.filesReliable && !v.skipped ==>
      ((e == None || e == Some(PushFailed)) <==> Deliverable(was.tree, r.dir, v.service, meta, r.stages)))
    && (r.gitReliable && e == Some(PushFailed) ==> flag' == v.isNew)
    && Between(was.g.upstream, now.g.upstream, tag, |was.g.commits|)
    && AllBetween(was.seen, now.seen, was.g.upstream, tag, |was.g.commits|)
    && was.g.commits <= now.g.commits && (e.Some? && r.gitReliable ==> now.g.upstream == was.g.upstream)
  }

  // ---------- One turn ----------

  lemma DeliverableKept(t: Tree, now: Tree, dir: Path, service: Directory, meta: Metadata, stages: seq<Directory>)
    requires SameBeside(t, now, dir) && SameRoots(t, now, dir) && SourcesApart(dir, service, meta, stages)
    ensures Deliverable(now, dir, service, meta, stages) <==> Deliverable(t, dir, service, meta, stages)
  {
    SameFile(t, now, dir + ["base"]);
    SameFile(t, now, dir + ["stages"]);
    forall i | 0 <= i < |stages|
      ensures NoStageFile(now, dir, stages[i].name) <==> NoStageFile(t, dir, stages[i].name)
      ensures StageDeliverable(now, dir, service.name, stages[i]) <==> StageDeliverable(t, dir, service.name, stages[i])
    {
      SameFile(t, now, dir + ["stages", stages[i].name]);
      var src := stages[i].path + [service.name];
      assert Under(stages[i].path, src);
      SourceSame(t, now, dir, stages[i].path, src);
      assert At(now, src) == At(t, src);
    }
    assert Cleanable(now, dir, stages) <==> Cleanable(t, dir, stages);
    SourcesFit(t, now, dir, service, meta, stages);
  }

  lemma SameFile(t: Tree, now: Tree, p: Path)
    requires LeafAt(now, p) == LeafAt(t, p)
    ensures FileAt(now, p) == FileAt(t, p)
  {}

  lemma SourcesFit(t: Tree, now: Tree, dir: Path, service: Directory, meta: Metadata, stages: seq<Directory>)
    requires SameBeside(t, now, dir) && SourcesApart(dir, service, meta, stages)
    ensures IsDir(now, service.path) <==> IsDir(t, service.path)
    ensures meta.chartDir.Some? ==> (IsDir(now, meta.chartDir.value) <==> IsDir(t, meta.chartDir.value))
    ensures ChartFits(now, service) <==> ChartFits(t, service)
  {
    assert At(now, service.path) == At(t, service.path);
    if meta.chartDir.Some? { assert At(now, meta.chartDir.value) == At(t, meta.chartDir.value); }
    forall rel: Path ensures At(now, service.path + rel) == At(t, service.path + rel) {
      assert Under(service.path, service.path + rel);
      SourceSame(t, now, dir, service.path, service.path + rel);
    }
  }

  lemma SafeSoFarStep(r: Run, was: State, now: State, e: Option<DeliveryError>, flag: bool, flag': bool, v: Visited)
    requires SafeSoFar(r, was) && Synced(r.g) && r.g.tagObjects <= was.g.tagObjects
    requires |r.g.commits| <= |was.g.commits| && Served(r, was, now, e, flag, flag', v)
    ensures SafeSoFar(r, now)
  {
    var tag := TagOf(v.service, r.services[v.service]);
    assert r.Keeps(tag) ==> v.skipped;
    SafeStep(r, was.g.upstream, now.g.upstream, tag, |was.g.commits|);
    AllSafeStep(r, was.seen, now.seen, was.g.upstream, tag, |was.g.commits|);
  }

  lemma RootsStep(t: Tree, was: Tree, now: Tree, dir: Path, service: Directory, chart: Option<Path>,
                  stages: seq<Directory>, copied: set<nat>)
    requires SameRoots(t, was, dir) && Delivered(was, now, dir, service, chart, stages, copied)
    ensures SameRoots(t, now, dir)
  {
    forall s ensures LeafAt(now, dir + ["stages", s]) == LeafAt(t, dir + ["stages", s]) {
      RootsKept(was, now, dir, service, chart, stages, copied, s);
    }
    RootsKept(was, now, dir, service, chart, stages, copied, "");
  }

  lemma TreeStep(r: Run, was: State, now: State, flag: bool, flag': bool, v: Visited)
    requires TreeSoFar(r, was) && Served(r, was, now, None, flag, flag', v) && !v.skipped
    ensures TreeSoFar(r, now)
  {
    RootsStep(r.t, was.tree, now.tree, r.dir, v.service, r.services[v.service].chartDir, r.stages, v.copied);
    SameBesideStep(r.t, was.tree, now.tree, r.dir);
  }

  /** What a publication did to the repository. */
  ghost predicate Adds(r: Run, g: Git, g': Git, rec: Record, snap: Snapshot) {
    && g.commits != [] && Synced(g)
    && RecordsNext(g.commits[|g.commits| - 1], snap, rec, r.t, r.dir, r.services, r.stages)
    && PublishedAs(g, g', snap, RecTag(rec, r.services))
    && (r.filesReliable ==> rec.copied == AllBelow(|r.stages|))
  }

  /** The commit records the service, read from the tree the run started with. */
  lemma RecordFiles(r: Run, t: Tree, now: Tree, rec: Record)
    requires rec.service in r.services && SameBeside(r.t, t, r.dir)
    requires SourcesApart(r.dir, rec.service, r.services[rec.service], r.stages)
    requires Delivered(t, now, r.dir, rec.service, r.services[rec.service].chartDir, r.stages, rec.copied)
    ensures RecordsNext(SnapshotOf(t, r.dir), SnapshotOf(now, r.dir), rec, r.t, r.dir, r.services, r.stages)
  {
    RecordService(r.t, t, now, r.dir, rec.service, r.services[rec.service], r.stages, rec.copied);
  }

  lemma AddsRecord(r: Run, g: Git, g': Git, t: Tree, rec: Record, snap: Snapshot)
    requires CleanHead(g, t, r.dir) && PublishedAs(g, g', snap, RecTag(rec, r.services))
    requires RecordsNext(SnapshotOf(t, r.dir), snap, rec, r.t, r.dir, r.services, r.stages)
    requires r.filesReliable ==> rec.copied == AllBelow(|r.stages|)
    ensures Adds(r, g, g', rec, snap)
  {}

  lemma RecordStep(r: Run, was: State, now: State, flag: bool, flag': bool, v: Visited)
    requires TreeSoFar(r, was) && Served(r, was, now, None, flag, flag', v) && !v.skipped
    requires SourcesApart(r.dir, v.service, r.services[v.service], r.stages)
    ensures Adds(r, was.g, now.g, Record(v.service, v.copied), SnapshotOf(now.tree, r.dir))
  {
    var rec := Record(v.service, v.copied);
    RecordFiles(r, was.tree, now.tree, rec);
    AddsRecord(r, was.g, now.g, was.tree, rec, SnapshotOf(now.tree, r.dir));
  }

  /** A publication adds the record's commit and tag. */
  lemma PublishedStep(r: Run, g: Git, g': Git, recs: seq<Record>, rec: Record, snap: Snapshot)
    requires PublishedSoFar(r, g, recs) && Adds(r, g, g', rec, snap)
    ensures PublishedSoFar(r, g', recs + [rec])
  {
    ChainStep(g.commits, snap, |r.g.commits|, recs, rec, r.t, r.dir, r.services, r.stages);
    AfterPublishing(r.g.tags, r.g.tagObjects, |r.g.commits|, recs, rec, r.services);
  }

  lemma SameBesideStep(t: Tree, now: Tree, now': Tree, dir: Path)
    requires SameBeside(t, now, dir) && SameBeside(now, now', dir)
    ensures SameBeside(t, now', dir)
  {
    forall p | !Under(dir, p) ensures At(now', p) == At(t, p) {
      assert At(now', p) == At(now, p);
    }
  }

  /** The log with the visit, whether it ended well or not. */
  lemma LogStep(r: Run, was: State, now: State, e: Option<DeliveryError>, flag: bool, flag': bool, v: Visited,
                log: seq<Visited>)
    requires PublishedSoFar(r, was.g, RecordsOf(log)) && VisitedSoFar(r, flag, log)
    requires Served(r, was, now, e, flag, flag', v)
    ensures Decided(r.g, log + [v], r.services) && (r.listingWorks ==> AlwaysListed(log + [v]))
    ensures flag' == FlagAfter(log + [v])
    ensures FlagAgrees(log + [v]) <==> v.skipped || (flag' <==> !v.isNew)
  {
    RecordsStep(log, v);
  }

  lemma CopiedStep(r: Run, was: State, now: State, e: Option<DeliveryError>, flag: bool, flag': bool, v: Visited,
                   log: seq<Visited>)
    requires TreeSoFar(r, was) && CopiedFrom(r, log) && Served(r, was, now, e, flag, flag', v)
    requires SourcesApart(r.dir, v.service, r.services[v.service], r.stages)
    ensures e == None ==> CopiedFrom(r, log + [v])
    ensures r.filesReliable && !v.skipped ==> ((e == None || e == Some(PushFailed)) <==> r.Copies(v.service))
  {
    DeliverableKept(r.t, was.tree, r.dir, v.service, r.services[v.service], r.stages);
  }

  lemma GitStep(r: Run, g: Git, g': Git, v: Visited, log: seq<Visited>, snap: Snapshot)
    requires PublishedSoFar(r, g, RecordsOf(log))
    requires if v.skipped then g' == g else Adds(r, g, g', Record(v.service, v.copied), snap)
    ensures PublishedSoFar(r, g', RecordsOf(log + [v]))
  {
    RecordsStep(log, v);
    if v.skipped {
      assert RecordsOf(log + [v]) == RecordsOf(log);
    } else {
      PublishedStep(r, g, g', RecordsOf(log), Record(v.service, v.copied), snap);
    }
  }

  lemma ProgressStep(r: Run, was: State, now: State, flag: bool, flag': bool, v: Visited, log: seq<Visited>)
    requires Progress(r, was, flag, log) && Served(r, was, now, None, flag, flag', v)
    requires SourcesApart(r.dir, v.service, r.services[v.service], r.stages) && Synced(r.g)
    ensures Progress(r, now, flag', log + [v])
  {
    SafeSoFarStep(r, was, now, None, flag, flag', v);
    LogStep(r, was, now, None, flag, flag', v, log);
    CopiedStep(r, was, now, None, flag, flag', v, log);
    if !v.skipped {
      RecordStep(r, was, now, flag, flag', v);
      TreeStep(r, was, now, flag, flag', v);
    }
    GitStep(r, was.g, now.g, v, log, SnapshotOf(now.tree, r.dir));
  }

  // ---------- How a run ends ----------

  /** The services published before the last visit. */
  function RecordsBefore(log: seq<Visited>): seq<Record> {
    if log == [] then [] else RecordsOf(Front(log))
  }

  /** The upstream repository right after the services of `recs` were published. */
  function UpstreamAfter(r: Run, recs: seq<Record>): Upstream
    requires r.g.commits != []
  {
    Upstream(|r.g.commits| - 1 + |recs|, TagsAfter(r.g.tags, |r.g.commits|, recs, r.services))
  }

  /** The first commits are still those of the published services; a commit that was not pushed may follow. */
  ghost predicate CommitsKept(r: Run, commits: seq<Snapshot>, recs: seq<Record>) {
    && |r.g.commits| + |recs| <= |commits| && r.g.commits <= commits
    && Chain(commits[..|r.g.commits| + |recs|], |r.g.commits|, recs, r.t, r.dir, r.services, r.stages)
    && (r.filesReliable ==> forall c :: c in recs ==> c.copied == AllBelow(|r.stages|))
  }

  /**
   The repository of a run that stopped at its last visit: upstream at most that service's tag is not as it was, and if
   git does not fail for no reason, nothing.
   */
  ghost predicate Interrupted(r: Run, g: Git, log: seq<Visited>) {
    && log != [] && Last(log).service in r.services && r.g.commits != []
    && var recs, s := RecordsBefore(log), Last(log).service;
    && CommitsKept(r, g.commits, recs)
    && Between(UpstreamAfter(r, recs), g.upstream, TagOf(s, r.services[s]), |r.g.commits| + |recs|)
    && (r.gitReliable ==> g.upstream == UpstreamAfter(r, recs))
  }

  /** A run that failed with `e` at its last visit. */
  ghost predicate Stopped(r: Run, now: State, log: seq<Visited>, e: DeliveryError) {
    && Interrupted(r, now.g, log) && !Last(log).skipped && FlagAgrees(Front(log)) && CopiedFrom(r, Front(log))
    && (r.filesReliable ==> (e == PushFailed <==> r.Copies(Last(log).service)))
    && (r.gitReliable && e == PushFailed ==> !FlagAgrees(log))
  }

  /** A run that went through. */
  ghost predicate Completed(r: Run, now: State, log: seq<Visited>) {
    TreeSoFar(r, now) && PublishedSoFar(r, now.g, RecordsOf(log)) && FlagAgrees(log) && CopiedFrom(r, log)
  }

  /** What a run promises: its decisions, the state it leaves and the safety of every state in between. */
  ghost predicate Outcome(r: Run, order: seq<Directory>, now: State, log: seq<Visited>, e: Option<DeliveryError>) {
    && SafeSoFar(r, now)
    && Decided(r.g, log, r.services) && (r.listingWorks ==> AlwaysListed(log))
    && ServicesOf(log) <= order
    && (e == None ==> |log| == |order| && Completed(r, now, log))
    && (e.Some? ==> Stopped(r, now, log, e.value))
    && (r.Idle() ==> e == None && now == State(r.g, r.t, r.seen))
  }

  /** `listed` says for every position of the order whether the tags could be listed there. */
  predicate ListedFor(order: seq<Directory>, listed: seq<bool>, log: seq<Visited>) {
    |listed| == |order| && ListedOf(log) <= listed
  }

  lemma ListingWorked(r: Run, order: seq<Directory>, now: State, log: seq<Visited>, e: Option<DeliveryError>)
    requires Outcome(r, order, now, log, e) && r.listingWorks
    ensures ListedFor(order, AlwaysWorks(|order|), log)
  {
    assert |ServicesOf(log)| == |log|;
  }

  /**
   With nothing failing for no reason but the listing of tags, a run goes through exactly if no service fails by what
   was there at the start; otherwise it stops at the first one that does, in the copies if they cannot succeed, else at
   the push.
   */
  lemma RunFailsExactly(r: Run, order: seq<Directory>, listed: seq<bool>, now: State, log: seq<Visited>,
                        e: Option<DeliveryError>)
    requires Outcome(r, order, now, log, e) && r.filesReliable && r.gitReliable && ListedFor(order, listed, log)
    ensures e == None <==> forall i :: 0 <= i < |order| ==> !r.Fails(order, listed, i)
    ensures e.Some? ==> 0 < |log| <= |order| && r.Fails(order, listed, |log| - 1)
    ensures e.Some? ==> forall i :: 0 <= i < |log| - 1 ==> !r.Fails(order, listed, i)
    ensures e.Some? ==> (e == Some(PushFailed) <==> r.Copies(order[|log| - 1]))
  {
    LogDecides(r.g, log, r.services);
    assert |ServicesOf(log)| == |log|;
    if e == None {
      NoneFails(r, order, listed, log);
    } else {
      LastFails(r, order, listed, now, log, e.value);
    }
  }

  lemma LastFails(r: Run, order: seq<Directory>, listed: seq<bool>, now: State, log: seq<Visited>, e: DeliveryError)
    requires Stopped(r, now, log, e) && ServicesOf(log) <= order && ListedOf(log) <= listed
    requires DecidedAtStart(r.g, r.services, log) && r.filesReliable && r.gitReliable
    ensures r.Fails(order, listed, |log| - 1) && (e == PushFailed <==> r.Copies(order[|log| - 1]))
    ensures forall i :: 0 <= i < |log| - 1 ==> !r.Fails(order, listed, i)
  {
    var n := |log| - 1;
    FrontWorks(r, order, listed, log);
    assert FromStart(r.g, r.services, log, n) && ServicesOf(log)[n] == order[n];
    SameInPrefix(r.g, r.services, ServicesOf(log), order, ListedOf(log), listed, n);
    StuckAtLast(r.g, r.services, order, listed, log);
  }

  lemma FrontWorks(r: Run, order: seq<Directory>, listed: seq<bool>, log: seq<Visited>)
    requires log != [] && ServicesOf(log) <= order && ListedOf(log) <= listed && r.filesReliable
    requires DecidedAtStart(r.g, r.services, log) && FlagAgrees(Front(log)) && CopiedFrom(r, Front(log))
    ensures forall i :: 0 <= i < |log| - 1 ==> !r.Fails(order, listed, i)
  {
    FrontDecided(r.g, r.services, log);
    FrontBegins(log);
    NoneFails(r, order, listed, Front(log));
  }

  /** The flag agreed with the tag map up to the last visit: it does not there exactly if that service gets stuck. */
  lemma StuckAtLast(g: Git, services: Services, order: seq<Directory>, listed: seq<bool>, log: seq<Visited>)
    requires log != [] && DecidedAtStart(g, services, log) && FlagAgrees(Front(log))
    requires ServicesOf(log) <= order && ListedOf(log) <= listed
    ensures FlagAgrees(log) <==> !StuckAt(g, services, order, listed, |log| - 1)
  {
    FrontDecided(g, services, log);
    StuckExactly(g, services, Front(log));
    FlagAtLast(g, services, log);
    StuckInPrefix(g, services, ServicesOf(log), order, ListedOf(log), listed, |log| - 1);
  }

  lemma NoneFails(r: Run, order: seq<Directory>, listed: seq<bool>, log: seq<Visited>)
    requires DecidedAtStart(r.g, r.services, log) && ServicesOf(log) <= order && ListedOf(log) <= listed
    requires FlagAgrees(log) && CopiedFrom(r, log) && r.filesReliable
    ensures forall i :: 0 <= i < |log| ==> !r.Fails(order, listed, i)
  {
    StuckExactly(r.g, r.services, log);
    forall i | 0 <= i < |log| ensures !r.Fails(order, listed, i) {
      assert ServicesOf(log)[i] == order[i] == log[i].service && FromStart(r.g, r.services, log, i);
      SameInPrefix(r.g, r.services, ServicesOf(log), order, ListedOf(log), listed, i);
      StuckInPrefix(r.g, r.services, ServicesOf(log), order, ListedOf(log), listed, i);
    }
  }

  /** When all copies succeed: the push fails exactly if some service gets stuck. */
  lemma PushFailsExactly(r: Run, order: seq<Directory>, listed: seq<bool>, now: State, log: seq<Visited>,
                         e: Option<DeliveryError>)
    requires Outcome(r, order, now, log, e) && r.filesReliable && r.gitReliable && ListedFor(order, listed, log)
    requires forall s :: s in order ==> r.Copies(s)
    ensures e == None || e == Some(PushFailed)
    ensures e == Some(PushFailed) <==> exists i :: 0 <= i < |order| && StuckAt(r.g, r.services, order, listed, i)
  {
    RunFailsExactly(r, order, listed, now, log, e);
    FailsIsStuck(r, order, listed);
    if e.Some? { assert order[|log| - 1] in order; }
  }

  lemma FailsIsStuck(r: Run, order: seq<Directory>, listed: seq<bool>)
    requires forall s :: s in order ==> r.Copies(s)
    ensures forall i :: 0 <= i < |order| ==>
      (r.Fails(order, listed, i) <==> StuckAt(r.g, r.services, order, listed, i))
  {
    forall i | 0 <= i < |order| ensures r.Fails(order, listed, i) <==> StuckAt(r.g, r.services, order, listed, i) {
      assert order[i] in order;
    }
  }

  // ---------- Which tags a run moves ----------

  /** Tags on the branch name commits that are there. */
  ghost predicate TagsExist(g: Git) {
    forall t :: t in g.tags && g.tags[t].OnBranch? ==> g.tags[t].index < |g.commits|
  }

  /** The services a run has published: all of its records, or those before the visit at which it stopped. */
  function RecordsDone(log: seq<Visited>, e: Option<DeliveryError>): seq<Record> {
    if e == None then RecordsOf(log) else RecordsBefore(log)
  }

  function VisitsDone(log: seq<Visited>, e: Option<DeliveryError>): seq<Visited> {
    if e == None || log == [] then log else Front(log)
  }

  lemma UpstreamOfRun(r: Run, order: seq<Directory>, now: State, log: seq<Visited>, e: Option<DeliveryError>)
    requires Outcome(r, order, now, log, e) && r.gitReliable
    ensures now.g.upstream.tags == TagsAfter(r.g.tags, |r.g.commits|, RecordsDone(log, e), r.services)
    ensures RecordsDone(log, e) == RecordsOf(VisitsDone(log, e))
  {}

  /** A tag is another one after the records exactly if one of them has it. */
  lemma TagMovedExactly(r: Run, recs: seq<Record>, tag: string)
    requires TagsExist(r.g)
    ensures TagAt(TagsAfter(r.g.tags, |r.g.commits|, recs, r.services), tag) != TagAt(r.g.tags, tag) <==>
            exists k :: 0 <= k < |recs| && RecTag(recs[k], r.services) == tag
  {
    ChangedTagsAreRecords(r.g.tags, |r.g.commits|, recs, r.services, tag);
    if k :| 0 <= k < |recs| && RecTag(recs[k], r.services) == tag {
      var i := TakenTag(r.g.tags, |r.g.commits|, recs, r.services, k);
    }
  }

  /** A service among the first `n` visits has the tag and is not left alone. */
  predicate TakenUpTo(r: Run, order: seq<Directory>, listed: seq<bool>, n: nat, tag: string) {
    exists i :: 0 <= i < n && TakesTag(r.g, r.services, order, listed, i, tag)
  }

  /**
   With git not failing for no reason, also in a run that stops and in one over services that share tags: a tag is
   moved exactly if it is that of a service that was visited, not left alone, and not the one at which the run stopped.
   */
  lemma VisitMovesExactly(r: Run, order: seq<Directory>, listed: seq<bool>, now: State, log: seq<Visited>,
                          e: Option<DeliveryError>, tag: string)
    requires Outcome(r, order, now, log, e) && r.gitReliable && ListedFor(order, listed, log)
    requires Synced(r.g) && TagsExist(r.g)
    ensures TagAt(now.g.upstream.tags, tag) != TagAt(r.g.upstream.tags, tag) <==>
            TakenUpTo(r, order, listed, |VisitsDone(log, e)|, tag)
  {
    UpstreamOfRun(r, order, now, log, e);
    LogDecides(r.g, log, r.services);
    DoneMoves(r, order, listed, log, VisitsDone(log, e), tag);
  }

  lemma DoneMoves(r: Run, order: seq<Directory>, listed: seq<bool>, log: seq<Visited>, done: seq<Visited>, tag: string)
    requires DecidedAtStart(r.g, r.services, log) && ServicesOf(log) <= order && ListedOf(log) <= listed
    requires done <= log && TagsExist(r.g)
    ensures TagAt(TagsAfter(r.g.tags, |r.g.commits|, RecordsOf(done), r.services), tag) != TagAt(r.g.tags, tag) <==>
            TakenUpTo(r, order, listed, |done|, tag)
  {
    assert done == log[..|done|];
    PrefixDecided(r.g, r.services, log, |done|);
    TagMovedExactly(r, RecordsOf(done), tag);
    TakenByVisits(r, order, listed, done, tag);
  }

  lemma TakenByVisits(r: Run, order: seq<Directory>, listed: seq<bool>, done: seq<Visited>, tag: string)
    requires DecidedAtStart(r.g, r.services, done) && ServicesOf(done) <= order && ListedOf(done) <= listed
    ensures (exists k :: 0 <= k < |RecordsOf(done)| && RecTag(RecordsOf(done)[k], r.services) == tag) <==>
            TakenUpTo(r, order, listed, |done|, tag)
  {
    forall i | 0 <= i < |done|
      ensures done[i].service in r.services
      ensures !done[i].skipped && TagIn(r.services, ServicesOf(done), i) == tag <==>
              TakesTag(r.g, r.services, order, listed, i, tag)
    {
      assert FromStart(r.g, r.services, done, i) && ServicesOf(done)[i] == done[i].service;
      SameInPrefix(r.g, r.services, ServicesOf(done), order, ListedOf(done), listed, i);
    }
    TagsOfRecords(done, r.services, tag);
  }

  /** The service at `i` has the tag, is not left alone, and no service up to it fails. */
  ghost predicate Moves(r: Run, order: seq<Directory>, listed: seq<bool>, i: nat, tag: string) {
    TakesTag(r.g, r.services, order, listed, i, tag) && forall j :: 0 <= j <= i ==> !r.Fails(order, listed, j)
  }

  /**
   With nothing failing for no reason but the listing of tags: a tag is moved exactly if some service that has it is not
   left alone and no service up to that one fails.
   */
  lemma TagMovesExactly(r: Run, order: seq<Directory>, listed: seq<bool>, now: State, log: seq<Visited>,
                        e: Option<DeliveryError>, tag: string)
    requires Outcome(r, order, now, log, e) && r.filesReliable && r.gitReliable && ListedFor(order, listed, log)
    requires Synced(r.g) && TagsExist(r.g)
    ensures TagAt(now.g.upstream.tags, tag) != TagAt(r.g.upstream.tags, tag) <==>
            exists i :: 0 <= i < |order| && Moves(r, order, listed, i, tag)
  {
    VisitMovesExactly(r, order, listed, now, log, e, tag);
    RunFailsExactly(r, order, listed, now, log, e);
    MovesBeforeStop(r, order, listed, log, e, tag);
  }

  lemma MovesBeforeStop(r: Run, order: seq<Directory>, listed: seq<bool>, log: seq<Visited>, e: Option<DeliveryError>,
                        tag: string)
    requires |VisitsDone(log, e)| <= |order|
    requires forall i :: 0 <= i < |VisitsDone(log, e)| ==> !r.Fails(order, listed, i)
    requires |VisitsDone(log, e)| < |order| ==> r.Fails(order, listed, |VisitsDone(log, e)|)
    ensures TakenUpTo(r, order, listed, |VisitsDone(log, e)|, tag) <==>
            exists i :: 0 <= i < |order| && Moves(r, order, listed, i, tag)
  {
    var n := |VisitsDone(log, e)|;
    forall i | 0 <= i < |order|
      ensures Moves(r, order, listed, i, tag) <==> i < n && TakesTag(r.g, r.services, order, listed, i, tag)
    {}
  }

  // ---------- The program ----------

  /** The copies and the push for one service (lines 54-85). */
  method DeliverAndPush(fs: FileSystem, git: Client, dir: Path, service: Directory, meta: Metadata,
                        stages: seq<Directory>, flag: bool)
    returns (e: Option<DeliveryError>, ghost copied: set<nat>)
    requires WellFormed(fs.tree) && IsDir(fs.tree, dir) && DistinctNames(stages)
    requires SourcesApart(dir, service, meta, stages)
    requires Synced(git.g) && git.g.upstream.head < |git.g.commits|
    modifies fs, git
    ensures e == None ==>
      && Copying(old(fs.tree), fs.tree, dir, service, meta.chartDir, stages, copied, |stages|)
      && PublishedAs(old(git.g), git.g, SnapshotOf(fs.tree, dir), TagOf(service, meta))
      && flag == (TagOf(service, meta) in old(git.g).tags)
    ensures e == None && fs.reliable ==> copied == AllBelow(|stages|)
    ensures fs.reliable ==>
      ((e == None || e == Some(PushFailed)) <==> Deliverable(old(fs.tree), dir, service, meta, stages))
    ensures Between(old(git.g).upstream, git.g.upstream, TagOf(service, meta), |old(git.g).commits|)
    ensures AllBetween(old(git.seen), git.seen, old(git.g).upstream, TagOf(service, meta), |old(git.g).commits|)
    ensures e == Some(PushFailed) && git.reliable ==> (flag <==> TagOf(service, meta) !in old(git.g).tags)
    ensures old(git.g).commits <= git.g.commits
    ensures e.Some? && git.reliable ==> git.g.upstream == old(git.g).upstream
    ensures e != Some(BaseCopy(DestinationExists)) && e != Some(StageCopy(DestinationExists))
  {
    var tag := TagOf(service, meta);
    assert tag != "";
    e, copied := DeliverFiles(fs, dir, service, meta, stages);
    if e.Some? {
      return;
    }
    PublishSynced(git.g, SnapshotOf(fs.tree, dir), tag, flag);
    var ok := git.CommitAndPushUpstream(SnapshotOf(fs.tree, dir), tag, flag);
    if !ok {
      e := Some(PushFailed);
    }
  }

  /** The tag lookup, the copies and the push for one service (lines 38-85) of the run `r`. */
  method DeliverService(fs: FileSystem, git: Client, dir: Path, service: Directory, meta: Metadata,
                        stages: seq<Directory>, flag: bool, ghost r: Run)
    returns (e: Option<DeliveryError>, flag': bool, ghost v: Visited)
    requires WellFormed(fs.tree) && IsDir(fs.tree, dir) && DistinctNames(stages)
    requires SourcesApart(dir, service, meta, stages)
    requires Synced(git.g) && git.g.upstream.head < |git.g.commits|
    requires r.dir == dir && r.stages == stages && service in r.services && r.services[service] == meta
    requires r.listingWorks == git.listingWorks && r.filesReliable == fs.reliable && r.gitReliable == git.reliable
    modifies fs, git
    ensures v.service == service
    ensures Served(r, State(old(git.g), old(fs.tree), old(git.seen)), State(git.g, fs.tree, git.seen), e, flag, flag',
                   v)
    ensures e != Some(BaseCopy(DestinationExists)) && e != Some(StageCopy(DestinationExists))
  {
    var tag := TagOf(service, meta);
    var l := git.TagExists(tag);
    ghost var isNew := tag !in git.g.tags;
    flag' := flag;
    if l != Absent {
      if l == Found && !meta.overwriteTag {
        return None, flag', Visited(service, l, true, isNew, AllBelow(|stages|));
      }
      flag' := true;
    }
    ghost var copied;
    e, copied := DeliverAndPush(fs, git, dir, service, meta, stages, flag');
    v := Visited(service, l, false, isNew, copied);
  }

  /** One turn of the loop of `composeData`: `v` is how the service was decided. */
  method NextService(fs: FileSystem, git: Client, dir: Path, s: Directory, meta: Metadata, stages: seq<Directory>,
                     flag: bool, ghost r: Run, ghost log: seq<Visited>)
    returns (e: Option<DeliveryError>, flag': bool, ghost v: Visited)
    requires r.dir == dir && r.stages == stages && s in r.services && r.services[s] == meta
    requires SourcesApart(dir, s, meta, stages) && DistinctNames(stages)
    requires r.listingWorks == git.listingWorks && r.filesReliable == fs.reliable && r.gitReliable == git.reliable
    requires Synced(r.g) && Progress(r, State(git.g, fs.tree, git.seen), flag, log)
    modifies fs, git
    ensures v.service == s && SafeSoFar(r, State(git.g, fs.tree, git.seen))
    ensures Decided(r.g, log + [v], r.services) && (r.listingWorks ==> AlwaysListed(log + [v]))
    ensures e == None ==> Progress(r, State(git.g, fs.tree, git.seen), flag', log + [v])
    ensures e.Some? ==> Stopped(r, State(git.g, fs.tree, git.seen), log + [v], e.value) && !r.Idle()
    ensures e != Some(BaseCopy(DestinationExists)) && e != Some(StageCopy(DestinationExists))
  {
    ghost var was := State(git.g, fs.tree, git.seen);
    e, flag', v := DeliverService(fs, git, dir, s, meta, stages, flag, r);
    ghost var now := State(git.g, fs.tree, git.seen);
    LogStep(r, was, now, e, flag, flag', v, log);
    SafeSoFarStep(r, was, now, e, flag, flag', v);
    if e == None {
      ProgressStep(r, was, now, flag, flag', v, log);
    } else {
      StoppedStep(r, was, now, e, flag, flag', v, log);
    }
  }

  lemma StoppedStep(r: Run, was: State, now: State, e: Option<DeliveryError>, flag: bool, flag': bool, v: Visited,
                    log: seq<Visited>)
    requires Progress(r, was, flag, log) && Served(r, was, now, e, flag, flag', v) && e.Some?
    requires SourcesApart(r.dir, v.service, r.services[v.service], r.stages)
    ensures Stopped(r, now, log + [v], e.value) && !r.Idle()
  {
    LogStep(r, was, now, e, flag, flag', v, log);
    CopiedStep(r, was, now, e, flag, flag', v, log);
    CommitsGrow(r, was.g, now.g, RecordsOf(log));
    InterruptedStep(r, was.g, now.g, log, v);
  }

  lemma InterruptedStep(r: Run, g: Git, g': Git, log: seq<Visited>, v: Visited)
    requires 0 < |r.g.commits| <= |g.commits| == |r.g.commits| + |RecordsOf(log)| == g.upstream.head + 1
    requires Synced(g) && g.tags == TagsAfter(r.g.tags, |r.g.commits|, RecordsOf(log), r.services)
    requires CommitsKept(r, g'.commits, RecordsOf(log)) && v.service in r.services
    requires Between(g.upstream, g'.upstream, TagOf(v.service, r.services[v.service]), |g.commits|)
    requires r.gitReliable ==> g'.upstream == g.upstream
    ensures Interrupted(r, g', log + [v])
  {
    RecordsStep(log, v);
    assert g.upstream == UpstreamAfter(r, RecordsOf(log));
  }

  lemma CommitsGrow(r: Run, g: Git, g': Git, recs: seq<Record>)
    requires PublishedSoFar(r, g, recs) && g.commits <= g'.commits
    ensures CommitsKept(r, g'.commits, recs)
  {
    assert g'.commits[..|g.commits|] == g.commits;
  }

  ghost predicate VisitedUpTo(order: seq<Directory>, log: seq<Visited>, n: nat) {
    n <= |order| && ServicesOf(log) == order[..n]
  }

  lemma VisitedNext(order: seq<Directory>, log: seq<Visited>, n: nat, v: Visited)
    requires n < |order| && VisitedUpTo(order, log, n) && v.service == order[n]
    ensures VisitedUpTo(order, log + [v], n + 1)
  {
    assert ServicesOf(log + [v]) == ServicesOf(log) + [v.service];
  }

  lemma StartOfRun(r: Run)
    requires CleanHead(r.g, r.t, r.dir)
    ensures Progress(r, State(r.g, r.t, r.seen), false, [])
  {}

  lemma StoppedOutcome(r: Run, order: seq<Directory>, now: State, log: seq<Visited>, e: DeliveryError, n: nat)
    requires VisitedUpTo(order, log, n) && SafeSoFar(r, now) && Stopped(r, now, log, e) && !r.Idle()
    requires Decided(r.g, log, r.services) && (r.listingWorks ==> AlwaysListed(log))
    ensures Outcome(r, order, now, log, Some(e))
  {}

  lemma CompletedOutcome(r: Run, order: seq<Directory>, now: State, flag: bool, log: seq<Visited>)
    requires VisitedUpTo(order, log, |order|) && Progress(r, now, flag, log)
    ensures Outcome(r, order, now, log, None)
  {
    assert |ServicesOf(log)| == |log|;
  }

  /** One turn of the loop, at position `i` of the order. */
  method VisitNext(fs: FileSystem, git: Client, order: seq<Directory>, i: nat, flag: bool, ghost r: Run,
                   ghost log: seq<Visited>, dir: Path, services: Services, stages: seq<Directory>)
    returns (e: Option<DeliveryError>, flag': bool, ghost log': seq<Visited>)
    requires i < |order| && VisitedUpTo(order, log, i) && Progress(r, State(git.g, fs.tree, git.seen), flag, log)
    requires r.dir == dir && r.stages == stages && r.services == services && order[i] in services && Synced(r.g)
    requires SourcesApart(dir, order[i], services[order[i]], stages) && DistinctNames(stages)
    requires r.listingWorks == git.listingWorks && r.filesReliable == fs.reliable && r.gitReliable == git.reliable
    modifies fs, git
    ensures e == None ==>
      VisitedUpTo(order, log', i + 1) && Progress(r, State(git.g, fs.tree, git.seen), flag', log')
    ensures e.Some? ==> Outcome(r, order, State(git.g, fs.tree, git.seen), log', e)
    ensures e != Some(BaseCopy(DestinationExists)) && e != Some(StageCopy(DestinationExists))
  {
    ghost var v;
    e, flag', v := NextService(fs, git, dir, order[i], services[order[i]], stages, flag, r, log);
    log' := log + [v];
    VisitedNext(order, log, i, v);
    if e.Some? {
      StoppedOutcome(r, order, State(git.g, fs.tree, git.seen), log', e.value, i + 1);
    }
  }

  /** The loop of `composeData`. */
  method VisitAll(fs: FileSystem, git: Client, order: seq<Directory>, ghost r: Run, dir: Path, services: Services,
                  stages: seq<Directory>)
    returns (e: Option<DeliveryError>, ghost log: seq<Visited>)
    requires r == Run(dir, services, stages, fs.tree, git.g, git.seen, git.listingWorks, fs.reliable, git.reliable)
    requires CleanHead(git.g, fs.tree, dir) && DistinctNames(stages) && OrderOf(order, services)
    requires forall s :: s in services ==> SourcesApart(dir, s, services[s], stages)
    modifies fs, git
    ensures Outcome(r, order, State(git.g, fs.tree, git.seen), log, e)
    ensures e != Some(BaseCopy(DestinationExists)) && e != Some(StageCopy(DestinationExists))
  {
    var flag := false;
    log := [];
    StartOfRun(r);
    for i := 0 to |order|
      invariant VisitedUpTo(order, log, i) && Progress(r, State(git.g, fs.tree, git.seen), flag, log)
    {
      e, flag, log := VisitNext(fs, git, order, i, flag, r, log, dir, services, stages);
      if e.Some? {
        return;
      }
    }
    CompletedOutcome(r, order, State(git.g, fs.tree, git.seen), flag, log);
    e := None;
  }

  /**
   `composeData`, for every `order` in which Go may range over the services. `log` holds the visits with their
   decisions; the services published are those of `RecordsOf(log)`.
   */
  method ComposeData(fs: FileSystem, git: Client, dir: Path, services: Services, stages: seq<Directory>,
                     order: seq<Directory>)
    returns (e: Option<DeliveryError>, ghost log: seq<Visited>, ghost r: Run)
    requires CleanHead(git.g, fs.tree, dir) && DistinctNames(stages) && OrderOf(order, services)
    requires forall s :: s in services ==> SourcesApart(dir, s, services[s], stages)
    modifies fs, git
    ensures r == Run(dir, services, stages, old(fs.tree), old(git.g), old(git.seen), git.listingWorks, fs.reliable,
                     git.reliable)
    ensures Outcome(r, order, State(git.g, fs.tree, git.seen), log, e)
    // Exactly when it fails, with listing at work.
    ensures git.listingWorks && fs.reliable && git.reliable ==>
      (e == None <==> forall i :: 0 <= i < |order| ==> !r.Fails(order, AlwaysWorks(|order|), i))
    ensures e != Some(BaseCopy(DestinationExists)) && e != Some(StageCopy(DestinationExists))
  {
    r := Run(dir, services, stages, fs.tree, git.g, git.seen, git.listingWorks, fs.reliable, git.reliable);
    e, log := VisitAll(fs, git, order, r, dir, services, stages);
    ghost var now := State(git.g, fs.tree, git.seen);
    if git.listingWorks && fs.reliable && git.reliable {
      ListingWorked(r, order, now, log, e);
      RunFailsExactly(r, order, AlwaysWorks(|order|), now, log, e);
    }
  }
}
