/**
 The visits of a delivery run: how each service is decided, which tags and commits the published ones get, and how all
 this follows from what the repository held at the start
 (gitops-operator/controllers/utils_artifactdelivery.go:34-52).
 */
module DeliveryLog {
  import opened Wrappers
  import opened GitClient
  import opened ReleaseTag
  import opened Delivery

  type Services = map<Directory, Metadata>

  // ---------- The decisions ----------

  /**
   What the loop decided for a service: `isNew` says that its tag did not exist, `copied` which stages reached the tree.
   */
  datatype Visited = Visited(service: Directory, lookup: Lookup, skipped: bool, isNew: bool, copied: set<nat>)

  /** A published service. */
  datatype Record = Record(service: Directory, copied: set<nat>)

  function Front(log: seq<Visited>): seq<Visited>
    requires log != []
  {
    log[..|log| - 1]
  }

  function Last(log: seq<Visited>): Visited
    requires log != []
  {
    log[|log| - 1]
  }

  function ServicesOf(log: seq<Visited>): (r: seq<Directory>)
    ensures |r| == |log| && forall i :: 0 <= i < |log| ==> r[i] == log[i].service
  {
    seq(|log|, i requires 0 <= i < |log| => log[i].service)
  }

  /** The services that were not skipped, in order. */
  function RecordsOf(log: seq<Visited>): seq<Record> {
    if log == [] then []
    else RecordsOf(Front(log)) + if Last(log).skipped then [] else [Record(Last(log).service, Last(log).copied)]
  }

  function RecTag(r: Record, services: Services): string {
    if r.service in services then TagOf(r.service, services[r.service]) else ""
  }

  /** The tag map once the records are published as the commits from position `n` on. */
  function TagsAfter(tags: Tags, n: nat, recs: seq<Record>, services: Services): Tags
    decreases |recs|
  {
    if recs == [] then tags
    else
      var last := |recs| - 1;
      TagsAfter(tags, n, recs[..last], services)[RecTag(recs[last], services) := OnBranch(n + last)]
  }

  /** The annotated tags at that time. */
  function ObjectsAfter(objects: set<string>, recs: seq<Record>, services: Services): (r: set<string>)
    ensures objects <= r
    decreases |recs|
  {
    if recs == [] then objects
    else ObjectsAfter(objects, recs[..|recs| - 1], services) + {RecTag(recs[|recs| - 1], services)}
  }

  lemma AfterPublishing(tags: Tags, objects: set<string>, n: nat, recs: seq<Record>, r: Record, services: Services)
    ensures TagsAfter(tags, n, recs + [r], services) ==
            TagsAfter(tags, n, recs, services)[RecTag(r, services) := OnBranch(n + |recs|)]
    ensures ObjectsAfter(objects, recs + [r], services) == ObjectsAfter(objects, recs, services) + {RecTag(r, services)}
  {
    assert (recs + [r])[..|recs|] == recs;
  }

  /** The lookup, the skipping and the newness are those of the tags at the time of the visit. */
  predicate DecidedBy(tags: Tags, objects: set<string>, v: Visited, services: Services) {
    && v.service in services
    && var meta := services[v.service];
    var tag := TagOf(v.service, meta);
    && (v.lookup != ListFailed ==> v.lookup == if tag in objects then Found else Absent)
    && v.skipped == Skips(v.lookup, meta.overwriteTag)
    && v.isNew == (tag !in tags)
  }

  /** Every visit was decided by the tags that the repository and the services published before it had made. */
  predicate Decided(g: Git, log: seq<Visited>, services: Services) {
    log == [] ||
    (var before := RecordsOf(Front(log));
     Decided(g, Front(log), services) &&
     DecidedBy(TagsAfter(g.tags, |g.commits|, before, services), ObjectsAfter(g.tagObjects, before, services),
               Last(log), services))
  }

  predicate AlwaysListed(log: seq<Visited>) {
    forall i :: 0 <= i < |log| ==> log[i].lookup != ListFailed
  }

  // ---------- What the tags name ----------

  predicate LastWithTag(recs: seq<Record>, i: nat, services: Services) {
    forall j :: i < j < |recs| && i < |recs| ==> RecTag(recs[j], services) != RecTag(recs[i], services)
  }

  /** A published service's tag names its own commit, unless a later service took the same tag. */
  lemma {:induction false} TagsNameCommits(tags: Tags, n: nat, recs: seq<Record>, services: Services, i: nat)
    requires i < |recs| && LastWithTag(recs, i, services)
    ensures TagAt(TagsAfter(tags, n, recs, services), RecTag(recs[i], services)) == Some(OnBranch(n + i))
    decreases |recs|
  {
    var last := |recs| - 1;
    if i < last {
      var front := recs[..last];
      assert RecTag(recs[last], services) != RecTag(recs[i], services);
      assert LastWithTag(front, i, services) by {
        forall j | i < j < |front| ensures RecTag(front[j], services) != RecTag(front[i], services) {
          assert RecTag(recs[j], services) != RecTag(recs[i], services);
        }
      }
      TagsNameCommits(tags, n, front, services, i);
    }
  }

  /** The tag belongs to the published service `i` and names its commit. */
  predicate NamedBy(tags: Tags, n: nat, recs: seq<Record>, services: Services, tag: string, i: nat) {
    i < |recs| && RecTag(recs[i], services) == tag && TagAt(tags, tag) == Some(OnBranch(n + i))
  }

  /** Every tag that is not as it was belongs to a published service and names its commit. */
  lemma {:induction false} ChangedTagsAreRecords(tags: Tags, n: nat, recs: seq<Record>, services: Services, tag: string)
    ensures TagAt(TagsAfter(tags, n, recs, services), tag) == TagAt(tags, tag) ||
            exists i :: NamedBy(TagsAfter(tags, n, recs, services), n, recs, services, tag, i)
    ensures tag in TagsAfter(tags, n, recs, services) <==>
            tag in tags || exists i :: 0 <= i < |recs| && RecTag(recs[i], services) == tag
    decreases |recs|
  {
    if recs != [] {
      var last := |recs| - 1;
      var front := recs[..last];
      var after := TagsAfter(tags, n, recs, services);
      ChangedTagsAreRecords(tags, n, front, services, tag);
      if RecTag(recs[last], services) == tag {
        assert NamedBy(after, n, recs, services, tag, last);
      } else {
        assert TagAt(after, tag) == TagAt(TagsAfter(tags, n, front, services), tag);
        if i: nat :| NamedBy(TagsAfter(tags, n, front, services), n, front, services, tag, i) {
          assert NamedBy(after, n, recs, services, tag, i);
        }
        if i :| 0 <= i < |front| && RecTag(front[i], services) == tag {
          assert RecTag(recs[i], services) == tag;
        }
        forall i | 0 <= i < |recs| && RecTag(recs[i], services) == tag ensures RecTag(front[i], services) == tag {}
      }
    }
  }

  lemma {:induction false} ObjectsOfRecords(objects: set<string>, recs: seq<Record>, services: Services, tag: string)
    ensures tag in ObjectsAfter(objects, recs, services) <==>
            tag in objects || exists i :: 0 <= i < |recs| && RecTag(recs[i], services) == tag
    decreases |recs|
  {
    if recs != [] {
      var last := |recs| - 1;
      var front := recs[..last];
      ObjectsOfRecords(objects, front, services, tag);
      if i :| 0 <= i < |front| && RecTag(front[i], services) == tag { assert RecTag(recs[i], services) == tag; }
      forall i | 0 <= i < last && RecTag(recs[i], services) == tag ensures RecTag(front[i], services) == tag {}
    }
  }

  /** The tag of a published service names one of the new commits. */
  lemma {:induction false} TakenTag(tags: Tags, n: nat, recs: seq<Record>, services: Services, k: nat) returns (i: nat)
    requires k < |recs|
    ensures NamedBy(TagsAfter(tags, n, recs, services), n, recs, services, RecTag(recs[k], services), i)
    decreases |recs|
  {
    var tag, last := RecTag(recs[k], services), |recs| - 1;
    var front := recs[..last];
    if RecTag(recs[last], services) == tag {
      i := last;
    } else {
      assert front[k] == recs[k];
      i := TakenTag(tags, n, front, services, k);
      assert RecTag(recs[i], services) == tag;
    }
  }

  /** Exactly the visits that were not skipped are recorded. */
  lemma {:induction false} RecordsAreVisits(log: seq<Visited>, s: Directory)
    ensures (exists k :: 0 <= k < |RecordsOf(log)| && RecordsOf(log)[k].service == s) <==>
            exists i :: 0 <= i < |log| && log[i].service == s && !log[i].skipped
  {
    if log != [] {
      var front, v := Front(log), Last(log);
      var recs, all := RecordsOf(front), RecordsOf(log);
      assert log == front + [v];
      RecordsAreVisits(front, s);
      if k :| 0 <= k < |all| && all[k].service == s {
        if k < |recs| { assert recs[k].service == s; } else { assert log[|front|] == v; }
      }
      if i :| 0 <= i < |log| && log[i].service == s && !log[i].skipped {
        if i < |front| { assert front[i] == log[i]; } else { assert all[|recs|].service == s; }
      }
      if k :| 0 <= k < |recs| && recs[k].service == s { assert all[k].service == s; }
      if i :| 0 <= i < |front| && front[i].service == s && !front[i].skipped { assert log[i] == front[i]; }
    }
  }

  // ---------- The sticky flag ----------

  /** The flag after the services of `log`: it is never reset. */
  ghost predicate FlagAfter(log: seq<Visited>) {
    log != [] && (FlagAfter(Front(log)) || (!Last(log).skipped && Last(log).lookup != Absent))
  }

  /** At every service that was not skipped the flag agreed with the tag map. */
  ghost predicate FlagAgrees(log: seq<Visited>) {
    log == [] || (FlagAgrees(Front(log)) && (Last(log).skipped || (FlagAfter(log) <==> !Last(log).isNew)))
  }

  // ---------- Decisions from the input alone ----------

  /** The services in the order in which Go happens to range over the map. */
  ghost predicate OrderOf(order: seq<Directory>, services: Services) {
    && (forall i, j :: 0 <= i < j < |order| ==> order[i] != order[j])
    && forall s :: s in order <==> s in services
  }

  ghost predicate DistinctTags(services: Services) {
    forall s, z :: s in services && z in services && s != z ==> TagOf(s, services[s]) != TagOf(z, services[z])
  }

  /** No two services have the same directory name. */
  ghost predicate OneEachName(services: Services) {
    forall s, z :: s in services && z in services && s != z ==> s.name != z.name
  }

  /** Versions and config versions without dashes give services of distinct names distinct tags. */
  lemma DistinctNamesDistinctTags(services: Services)
    requires OneEachName(services)
    requires forall s :: s in services ==> '-' !in services[s].version && '-' !in services[s].configVersion
    ensures DistinctTags(services)
  {
    forall s, z | s in services && z in services && s != z ensures TagOf(s, services[s]) != TagOf(z, services[z]) {
      var m, w := services[s], services[z];
      assert s.name != z.name;
      if TagOf(s, m) == TagOf(z, w) {
        TagInjective(s.name, m.version, OrZero(m.configVersion), z.name, w.version, OrZero(w.configVersion));
      }
    }
  }

  function TagIn(services: Services, order: seq<Directory>, i: nat): string
    requires i < |order|
  {
    if order[i] in services then TagOf(order[i], services[order[i]]) else ""
  }

  /** A service before the one at `i` has the same tag. */
  predicate SharesTag(services: Services, order: seq<Directory>, i: nat)
    requires i < |order|
  {
    exists j :: 0 <= j < i && TagIn(services, order, j) == TagIn(services, order, i)
  }

  /** When the service at `i` is visited there is a tag object of its name: from the start, or since another visit. */
  predicate Annotated(g: Git, services: Services, order: seq<Directory>, i: nat)
    requires i < |order|
  {
    TagIn(services, order, i) in g.tagObjects || SharesTag(services, order, i)
  }

  /** The lookup finds the tag and it may not be overwritten; `listed` is whether tags could be listed. */
  predicate LeftAlone(g: Git, services: Services, order: seq<Directory>, listed: seq<bool>, i: nat) {
    && i < |order| && i < |listed| && order[i] in services
    && listed[i] && Annotated(g, services, order, i) && !services[order[i]].overwriteTag
  }

  /** The service at `j` has the tag and is published. */
  predicate TakesTag(g: Git, services: Services, order: seq<Directory>, listed: seq<bool>, j: nat, tag: string) {
    j < |order| && TagIn(services, order, j) == tag && !LeftAlone(g, services, order, listed, j)
  }

  /** When the service at `i` is visited its tag is there: from the start, or taken by a service before it. */
  predicate Tagged(g: Git, services: Services, order: seq<Directory>, listed: seq<bool>, i: nat)
    requires i < |order|
  {
    TagIn(services, order, i) in g.tags ||
    exists j :: 0 <= j < i && TakesTag(g, services, order, listed, j, TagIn(services, order, i))
  }

  /** The visit sets the flag: the tags cannot be listed, or the tag is found and may be overwritten. */
  predicate Raises(g: Git, services: Services, order: seq<Directory>, listed: seq<bool>, i: nat) {
    && i < |order| && i < |listed| && order[i] in services
    && (!listed[i] || (Annotated(g, services, order, i) && services[order[i]].overwriteTag))
  }

  /** One of the first `n` visits sets the flag. */
  predicate Raised(g: Git, services: Services, order: seq<Directory>, listed: seq<bool>, n: nat) {
    exists j :: 0 <= j < n && Raises(g, services, order, listed, j)
  }

  /** At the service that comes at `i` the flag says the opposite of the tag map. */
  predicate StuckAt(g: Git, services: Services, order: seq<Directory>, listed: seq<bool>, i: nat) {
    && i < |order| && i < |listed| && order[i] in services
    && !LeftAlone(g, services, order, listed, i)
    && (Raised(g, services, order, listed, i + 1) <==> !Tagged(g, services, order, listed, i))
  }

  /** Which of the visits could list the tags. */
  function ListedOf(log: seq<Visited>): (r: seq<bool>)
    ensures |r| == |log| && forall i :: 0 <= i < |log| ==> r[i] == (log[i].lookup != ListFailed)
  {
    seq(|log|, i requires 0 <= i < |log| => log[i].lookup != ListFailed)
  }

  /** Tags can be listed throughout. */
  function AlwaysWorks(n: nat): (r: seq<bool>)
    ensures |r| == n && forall i :: 0 <= i < n ==> r[i]
  {
    seq(n, _ => true)
  }

  // ---------- The same in a prefix ----------

  /** `front` and `flags` are the first visits of `order` and whether they could list the tags. */
  predicate Begins(front: seq<Directory>, order: seq<Directory>, flags: seq<bool>, listed: seq<bool>) {
    front <= order && flags <= listed && |front| == |flags|
  }

  lemma SameInPrefix(g: Git, services: Services, front: seq<Directory>, order: seq<Directory>, flags: seq<bool>,
                     listed: seq<bool>, i: nat)
    requires Begins(front, order, flags, listed) && i < |front|
    ensures TagIn(services, front, i) == TagIn(services, order, i)
    ensures Annotated(g, services, front, i) <==> Annotated(g, services, order, i)
    ensures LeftAlone(g, services, front, flags, i) <==> LeftAlone(g, services, order, listed, i)
    ensures Raises(g, services, front, flags, i) <==> Raises(g, services, order, listed, i)
  {
    assert forall j :: 0 <= j <= i ==> front[j] == order[j] && flags[j] == listed[j];
    assert forall j :: 0 <= j <= i ==> TagIn(services, front, j) == TagIn(services, order, j);
  }

  lemma TaggedInPrefix(g: Git, services: Services, front: seq<Directory>, order: seq<Directory>, flags: seq<bool>,
                       listed: seq<bool>, i: nat)
    requires Begins(front, order, flags, listed) && i < |front|
    ensures Tagged(g, services, front, flags, i) <==> Tagged(g, services, order, listed, i)
  {
    forall j | 0 <= j <= i
      ensures forall tag ::
        TakesTag(g, services, front, flags, j, tag) <==> TakesTag(g, services, order, listed, j, tag)
      ensures TagIn(services, front, j) == TagIn(services, order, j)
    {
      SameInPrefix(g, services, front, order, flags, listed, j);
    }
  }

  lemma RaisedInPrefix(g: Git, services: Services, front: seq<Directory>, order: seq<Directory>, flags: seq<bool>,
                       listed: seq<bool>, n: nat)
    requires Begins(front, order, flags, listed) && n <= |front|
    ensures Raised(g, services, front, flags, n) <==> Raised(g, services, order, listed, n)
  {
    forall j | 0 <= j < n ensures Raises(g, services, front, flags, j) <==> Raises(g, services, order, listed, j) {
      SameInPrefix(g, services, front, order, flags, listed, j);
    }
  }

  lemma StuckInPrefix(g: Git, services: Services, front: seq<Directory>, order: seq<Directory>, flags: seq<bool>,
                      listed: seq<bool>, i: nat)
    requires Begins(front, order, flags, listed) && i < |front|
    ensures StuckAt(g, services, front, flags, i) <==> StuckAt(g, services, order, listed, i)
  {
    SameInPrefix(g, services, front, order, flags, listed, i);
    TaggedInPrefix(g, services, front, order, flags, listed, i);
    RaisedInPrefix(g, services, front, order, flags, listed, i + 1);
  }

  lemma RaisedNext(g: Git, services: Services, order: seq<Directory>, listed: seq<bool>, n: nat)
    ensures Raised(g, services, order, listed, n + 1) <==>
            Raised(g, services, order, listed, n) || Raises(g, services, order, listed, n)
  {}

  lemma FrontBegins(log: seq<Visited>)
    requires log != []
    ensures Begins(ServicesOf(Front(log)), ServicesOf(log), ListedOf(Front(log)), ListedOf(log))
  {
    assert forall i :: 0 <= i < |log| - 1 ==> Front(log)[i] == log[i];
  }

  // ---------- What the visits found ----------

  /** The tag of every visited service is there as a tag object: it was found, or the service has been published. */
  lemma {:induction false} AllTagged(g: Git, log: seq<Visited>, services: Services)
    requires Decided(g, log, services)
    ensures forall i :: 0 <= i < |log| ==>
      TaggedIn(ObjectsAfter(g.tagObjects, RecordsOf(log), services), services, log[i].service)
  {
    if log != [] {
      var front, v := Front(log), Last(log);
      AllTagged(g, front, services);
      assert log == front + [v];
      VisitTags(g, front, v, services);
      forall i | 0 <= i < |log|
        ensures TaggedIn(ObjectsAfter(g.tagObjects, RecordsOf(log), services), services, log[i].service)
      {
        if i < |front| { assert front[i] == log[i]; }
      }
    }
  }

  predicate TaggedIn(objects: set<string>, services: Services, s: Directory) {
    s in services && TagOf(s, services[s]) in objects
  }

  /** A skipped service leaves the records, a published one is added to them. */
  lemma RecordsStep(log: seq<Visited>, v: Visited)
    ensures RecordsOf(log + [v]) == RecordsOf(log) + if v.skipped then [] else [Record(v.service, v.copied)]
    ensures Front(log + [v]) == log && Last(log + [v]) == v
  {
    assert Front(log + [v]) == log;
  }

  lemma VisitTags(g: Git, front: seq<Visited>, v: Visited, services: Services)
    requires DecidedBy(TagsAfter(g.tags, |g.commits|, RecordsOf(front), services),
                       ObjectsAfter(g.tagObjects, RecordsOf(front), services), v, services)
    ensures ObjectsAfter(g.tagObjects, RecordsOf(front), services) <=
            ObjectsAfter(g.tagObjects, RecordsOf(front + [v]), services)
    ensures TaggedIn(ObjectsAfter(g.tagObjects, RecordsOf(front + [v]), services), services, v.service)
  {
    RecordsStep(front, v);
    if v.skipped {
      assert RecordsOf(front) + [] == RecordsOf(front);
    } else {
      AfterPublishing(g.tags, g.tagObjects, |g.commits|, RecordsOf(front), Record(v.service, v.copied), services);
    }
  }

  /** The records have a tag exactly if a service with that tag was visited and not skipped. */
  lemma {:induction false} TagsOfRecords(log: seq<Visited>, services: Services, tag: string)
    requires forall i :: 0 <= i < |log| ==> log[i].service in services
    ensures (exists k :: 0 <= k < |RecordsOf(log)| && RecTag(RecordsOf(log)[k], services) == tag) <==>
            exists i :: 0 <= i < |log| && !log[i].skipped && TagIn(services, ServicesOf(log), i) == tag
  {
    var recs := RecordsOf(log);
    if k :| 0 <= k < |recs| && RecTag(recs[k], services) == tag {
      var z := recs[k].service;
      RecordsAreVisits(log, z);
      var i :| 0 <= i < |log| && log[i].service == z && !log[i].skipped;
      assert TagIn(services, ServicesOf(log), i) == tag;
    }
    if i :| 0 <= i < |log| && !log[i].skipped && TagIn(services, ServicesOf(log), i) == tag {
      var z := log[i].service;
      RecordsAreVisits(log, z);
      var k :| 0 <= k < |recs| && recs[k].service == z;
      assert RecTag(recs[k], services) == tag;
    }
  }

  /** What the repository held at the start decides every visit. */
  ghost predicate DecidedAtStart(g: Git, services: Services, log: seq<Visited>) {
    forall i :: 0 <= i < |log| ==> FromStart(g, services, log, i)
  }

  predicate FromStart(g: Git, services: Services, log: seq<Visited>, i: nat)
    requires i < |log|
  {
    var order, listed := ServicesOf(log), ListedOf(log);
    && order[i] in services
    && (log[i].isNew <==> !Tagged(g, services, order, listed, i))
    && (log[i].skipped <==> LeftAlone(g, services, order, listed, i))
    && (!log[i].skipped && log[i].lookup != Absent <==> Raises(g, services, order, listed, i))
  }

  lemma {:induction false} LogDecides(g: Git, log: seq<Visited>, services: Services)
    requires Decided(g, log, services)
    ensures DecidedAtStart(g, services, log)
  {
    if log != [] {
      var front := Front(log);
      LogDecides(g, front, services);
      forall i | 0 <= i < |front| ensures FromStart(g, services, log, i) {
        EarlierFromStart(g, services, log, i);
      }
      LastFromStart(g, services, log);
    }
  }

  lemma EarlierFromStart(g: Git, services: Services, log: seq<Visited>, i: nat)
    requires log != [] && i < |log| - 1 && FromStart(g, services, Front(log), i)
    ensures FromStart(g, services, log, i)
  {
    FrontBegins(log);
    SameInPrefix(g, services, ServicesOf(Front(log)), ServicesOf(log), ListedOf(Front(log)), ListedOf(log), i);
    TaggedInPrefix(g, services, ServicesOf(Front(log)), ServicesOf(log), ListedOf(Front(log)), ListedOf(log), i);
  }

  lemma LastFromStart(g: Git, services: Services, log: seq<Visited>)
    requires log != [] && Decided(g, log, services)
    requires forall i :: 0 <= i < |log| - 1 ==> FromStart(g, services, log, i)
    ensures FromStart(g, services, log, |log| - 1)
  {
    var n := |log| - 1;
    assert TagIn(services, ServicesOf(log), n) == TagOf(log[n].service, services[log[n].service]);
    forall i | 0 <= i < n ensures ServicesOf(log)[i] in services { assert FromStart(g, services, log, i); }
    ObjectsAtLast(g, services, log);
    TagsAtLast(g, services, log);
  }

  lemma ObjectsAtLast(g: Git, services: Services, log: seq<Visited>)
    requires log != [] && Decided(g, log, services)
    requires forall i :: 0 <= i < |log| - 1 ==> ServicesOf(log)[i] in services
    ensures var n := |log| - 1;
      TagIn(services, ServicesOf(log), n) in ObjectsAfter(g.tagObjects, RecordsOf(Front(log)), services) <==>
      Annotated(g, services, ServicesOf(log), n)
  {
    var front, order, n := Front(log), ServicesOf(log), |log| - 1;
    var tag := TagIn(services, order, n);
    FrontBegins(log);
    AllTagged(g, front, services);
    ObjectsOfRecords(g.tagObjects, RecordsOf(front), services, tag);
    TagsOfRecords(front, services, tag);
    forall i | 0 <= i < n ensures TagIn(services, order, i) == TagIn(services, ServicesOf(front), i) {}
    if j :| 0 <= j < n && TagIn(services, order, j) == tag {
      assert front[j].service == order[j];
    }
  }

  lemma TagsAtLast(g: Git, services: Services, log: seq<Visited>)
    requires log != [] && forall i :: 0 <= i < |log| - 1 ==> FromStart(g, services, log, i)
    ensures var n := |log| - 1;
      TagIn(services, ServicesOf(log), n) in TagsAfter(g.tags, |g.commits|, RecordsOf(Front(log)), services) <==>
      Tagged(g, services, ServicesOf(log), ListedOf(log), n)
  {
    var front, tag := Front(log), TagIn(services, ServicesOf(log), |log| - 1);
    ChangedTagsAreRecords(g.tags, |g.commits|, RecordsOf(front), services, tag);
    forall i | 0 <= i < |front| ensures front[i].service in services {
      assert FromStart(g, services, log, i) && ServicesOf(log)[i] == front[i].service;
    }
    TagsOfRecords(front, services, tag);
    TakenBefore(g, services, log, tag);
  }

  lemma TakenBefore(g: Git, services: Services, log: seq<Visited>, tag: string)
    requires log != [] && forall i :: 0 <= i < |log| - 1 ==> FromStart(g, services, log, i)
    ensures var front, order, listed, n := Front(log), ServicesOf(log), ListedOf(log), |log| - 1;
      (exists i :: 0 <= i < n && !front[i].skipped && TagIn(services, ServicesOf(front), i) == tag) <==>
      exists j :: 0 <= j < n && TakesTag(g, services, order, listed, j, tag)
  {
    var front, order, listed, n := Front(log), ServicesOf(log), ListedOf(log), |log| - 1;
    forall i | 0 <= i < n
      ensures !front[i].skipped && TagIn(services, ServicesOf(front), i) == tag <==>
              TakesTag(g, services, order, listed, i, tag)
    {
      assert FromStart(g, services, log, i) && front[i] == log[i];
      assert TagIn(services, order, i) == TagIn(services, ServicesOf(front), i);
    }
  }

  // ---------- Where a run gets stuck ----------

  /** The flag disagrees with the tag map somewhere exactly if a service gets stuck. */
  lemma {:induction false} StuckExactly(g: Git, services: Services, log: seq<Visited>)
    requires DecidedAtStart(g, services, log)
    ensures FlagAfter(log) <==> Raised(g, services, ServicesOf(log), ListedOf(log), |log|)
    ensures FlagAgrees(log) <==>
            forall i :: 0 <= i < |log| ==> !StuckAt(g, services, ServicesOf(log), ListedOf(log), i)
  {
    if log != [] {
      var front, n := Front(log), |log| - 1;
      FrontDecided(g, services, log);
      StuckExactly(g, services, front);
      FlagAtLast(g, services, log);
      FrontBegins(log);
      forall i | 0 <= i < n
        ensures StuckAt(g, services, ServicesOf(log), ListedOf(log), i) <==>
                StuckAt(g, services, ServicesOf(front), ListedOf(front), i)
      {
        StuckInPrefix(g, services, ServicesOf(front), ServicesOf(log), ListedOf(front), ListedOf(log), i);
      }
    }
  }

  lemma PrefixDecided(g: Git, services: Services, log: seq<Visited>, n: nat)
    requires DecidedAtStart(g, services, log) && n <= |log|
    ensures DecidedAtStart(g, services, log[..n])
    ensures Begins(ServicesOf(log[..n]), ServicesOf(log), ListedOf(log[..n]), ListedOf(log))
  {
    var done := log[..n];
    assert forall j :: 0 <= j < n ==> done[j] == log[j];
    forall i | 0 <= i < n ensures FromStart(g, services, done, i) {
      assert FromStart(g, services, log, i);
      SameInPrefix(g, services, ServicesOf(done), ServicesOf(log), ListedOf(done), ListedOf(log), i);
      TaggedInPrefix(g, services, ServicesOf(done), ServicesOf(log), ListedOf(done), ListedOf(log), i);
    }
  }

  lemma FrontDecided(g: Git, services: Services, log: seq<Visited>)
    requires log != [] && DecidedAtStart(g, services, log)
    ensures DecidedAtStart(g, services, Front(log))
  {
    PrefixDecided(g, services, log, |log| - 1);
  }

  lemma FlagAtLast(g: Git, services: Services, log: seq<Visited>)
    requires log != [] && DecidedAtStart(g, services, log)
    requires var front := Front(log);
      FlagAfter(front) <==> Raised(g, services, ServicesOf(front), ListedOf(front), |front|)
    ensures FlagAfter(log) <==> Raised(g, services, ServicesOf(log), ListedOf(log), |log|)
    ensures FlagAgrees(log) <==>
            FlagAgrees(Front(log)) && !StuckAt(g, services, ServicesOf(log), ListedOf(log), |log| - 1)
  {
    var front, n := Front(log), |log| - 1;
    assert FromStart(g, services, log, n) && Last(log) == log[n];
    FrontBegins(log);
    RaisedInPrefix(g, services, ServicesOf(front), ServicesOf(log), ListedOf(front), ListedOf(log), n);
    RaisedNext(g, services, ServicesOf(log), ListedOf(log), n);
  }

  /** Where a tag that nobody annotated is first met. */
  lemma {:induction false} FirstWithTag(services: Services, order: seq<Directory>, i: nat) returns (j: nat)
    requires i < |order|
    ensures j <= i && TagIn(services, order, j) == TagIn(services, order, i) && !SharesTag(services, order, j)
  {
    j := i;
    if SharesTag(services, order, i) {
      var k :| 0 <= k < i && TagIn(services, order, k) == TagIn(services, order, i);
      j := FirstWithTag(services, order, k);
    }
  }

  /** An annotated tag that is not there is one whose object was left when it was deleted. */
  lemma AnnotatedUntagged(g: Git, services: Services, order: seq<Directory>, listed: seq<bool>, i: nat)
    requires i < |order| && !Tagged(g, services, order, listed, i) && Annotated(g, services, order, i)
    ensures TagIn(services, order, i) in g.tagObjects && TagIn(services, order, i) !in g.tags
  {
    var j := FirstWithTag(services, order, i);
    if j < i {
      assert !TakesTag(g, services, order, listed, j, TagIn(services, order, i));
    }
  }

  /**
   In a clone, where every tag object has its tag, and with listing at work: a service gets stuck exactly if its tag is
   new and comes after one that is replaced, or its tag is lightweight and does not.
   */
  lemma StuckCases(g: Git, services: Services, order: seq<Directory>, i: nat)
    requires g.tagObjects <= g.tags.Keys && i < |order| && order[i] in services
    ensures var listed := AlwaysWorks(|order|);
      StuckAt(g, services, order, listed, i) <==>
      if !Tagged(g, services, order, listed, i) then Raised(g, services, order, listed, i)
      else !Annotated(g, services, order, i) && !Raised(g, services, order, listed, i)
  {
    var listed := AlwaysWorks(|order|);
    RaisedNext(g, services, order, listed, i);
    if !Tagged(g, services, order, listed, i) && Annotated(g, services, order, i) {
      AnnotatedUntagged(g, services, order, listed, i);
    }
  }
}
