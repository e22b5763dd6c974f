/**
 The git client of the GitOps operator: tag lookup, and commit, tag and push to the upstream repository
 (gitops-operator/controllers/common/git.go:70-191).

 The cloned branch is a line of commits, named by their position. A tag may also point at a commit elsewhere.
 */
module GitClient {
  import opened Faults
  import opened Wrappers
  import opened FileTree

  type Snapshot = Tree

  datatype CommitId = OnBranch(index: nat) | Elsewhere(hash: string)

  type Tags = map<string, CommitId>

  datatype Upstream = Upstream(head: nat, tags: Tags)

  /** `tagObjects` are the names of the annotated tags the repository stores; a lightweight tag is only in `tags`. */
  datatype Git = Git(commits: seq<Snapshot>, tags: Tags, tagObjects: set<string>, upstream: Upstream)

  function TagAt(tags: Tags, tag: string): Option<CommitId> {
    if tag in tags then Some(tags[tag]) else None
  }

  /** Right after a clone, and after every successful push. */
  predicate Synced(g: Git) {
    g.tags == g.upstream.tags
  }

  /** Some tag differs upstream; pushing without force is refused. */
  predicate Rejected(tags: Tags, upstream: Tags) {
    exists t :: t in tags && t in upstream && tags[t] != upstream[t]
  }

  // ---------- The steps, when nothing fails without a cause ----------

  function DeleteLocal(g: Git, tag: string): Git {
    g.(tags := g.tags - {tag})
  }

  function DeleteUpstream(g: Git, tag: string): Git {
    g.(upstream := g.upstream.(tags := g.upstream.tags - {tag}))
  }

  function CreateTag(g: Git, tag: string): Git
    requires g.commits != []
  {
    g.(tags := g.tags[tag := OnBranch(|g.commits| - 1)], tagObjects := g.tagObjects + {tag})
  }

  function PushBranch(g: Git): Git
    requires g.commits != []
  {
    g.(upstream := g.upstream.(head := |g.commits| - 1))
  }

  function PushTags(g: Git): Git {
    g.(upstream := g.upstream.(tags := g.upstream.tags + g.tags))
  }

  /** `CommitAndPushUpstream(tag, tagExists)` and whether it succeeds. */
  function Publish(g: Git, snapshot: Snapshot, tag: string, tagExists: bool): (Git, bool) {
    var committed := g.(commits := g.commits + [snapshot]);
    if tagExists && tag !in g.tags then (committed, false)
    else if tagExists && tag !in g.upstream.tags then (DeleteLocal(committed, tag), false)
    else
      var cleared := if tagExists then DeleteUpstream(DeleteLocal(committed, tag), tag) else committed;
      if tag != "" && tag in cleared.tags then (cleared, false)
      else
        var tagged := if tag != "" then CreateTag(cleared, tag) else cleared;
        var pushed := PushBranch(tagged);
        if Rejected(pushed.tags, pushed.upstream.tags) then (pushed, false)
        else (PushTags(pushed), true)
  }

  /** `g'` is `g` after the snapshot was committed, tagged and pushed. */
  ghost predicate PublishedAs(g: Git, g': Git, snapshot: Snapshot, tag: string) {
    && g'.commits == g.commits + [snapshot]
    && g'.upstream == Upstream(|g.commits|, g.tags[tag := OnBranch(|g.commits|)])
    && Synced(g') && g'.tagObjects == g.tagObjects + {tag}
  }

  /**
   On a synced repository publishing succeeds exactly when the flag says what the tag map says, and then the tag names
   the new commit on both sides and every other tag is as before.
   */
  lemma PublishSynced(g: Git, snapshot: Snapshot, tag: string, tagExists: bool)
    requires Synced(g) && tag != ""
    ensures var (g', ok) := Publish(g, snapshot, tag, tagExists);
      && (ok <==> (tagExists <==> tag in g.tags))
      && (ok ==> PublishedAs(g, g', snapshot, tag))
      && (!ok ==> g'.upstream == g.upstream)
  {
    var t := g.tags - {tag};
    var u := t[tag := OnBranch(|g.commits|)];
    assert t + u == u;
    if !tagExists && tag !in g.tags { assert t == g.tags; }
    assert g.tags[tag := OnBranch(|g.commits|)] == u;
  }

  // ---------- One service of composeData, on the side of git ----------

  datatype Lookup = Absent | Found | ListFailed

  function LookupTag(g: Git, tag: string, listed: bool): Lookup {
    if !listed then ListFailed else if tag in g.tagObjects then Found else Absent
  }

  /** Without overwriting, a tag that was found is left alone. */
  predicate Skips(l: Lookup, overwrite: bool) {
    l == Found && !overwrite
  }

  /** The flag is set by any lookup error and never reset. */
  function StickyFlag(flag: bool, l: Lookup): bool {
    flag || l != Absent
  }

  function Visit(g: Git, flag: bool, snapshot: Snapshot, tag: string, overwrite: bool, listed: bool): (Git, bool) {
    var l := LookupTag(g, tag, listed);
    if Skips(l, overwrite) then (g, true) else Publish(g, snapshot, tag, StickyFlag(flag, l))
  }

  /**
   A tag that must not be overwritten moves exactly when tags cannot be listed, or it is lightweight and the flag stuck.
   */
  lemma VisitMovesTag(g: Git, flag: bool, snapshot: Snapshot, tag: string, listed: bool)
    requires Synced(g) && tag != "" && tag in g.tags && g.tags[tag] != OnBranch(|g.commits|)
    ensures TagAt(Visit(g, flag, snapshot, tag, false, listed).0.upstream.tags, tag) != TagAt(g.upstream.tags, tag) <==>
            !listed || (tag !in g.tagObjects && flag)
  {
    PublishSynced(g, snapshot, tag, StickyFlag(flag, LookupTag(g, tag, listed)));
  }

  // ---------- The client ----------

  /** What the upstream repository may hold while `tag` is being published at commit `index`. */
  ghost predicate Between(before: Upstream, now: Upstream, tag: string, index: nat) {
    && before.head <= now.head
    && (forall t :: t != tag ==> TagAt(now.tags, t) == TagAt(before.tags, t))
    && (tag in now.tags ==> TagAt(now.tags, tag) == TagAt(before.tags, tag) ||
                            (now.tags[tag] == OnBranch(index) && index <= now.head))
  }

  /** The upstream states after `earlier` grew to `seen` are all in between. */
  ghost predicate AllBetween(earlier: seq<Upstream>, seen: seq<Upstream>, before: Upstream, tag: string, index: nat) {
    earlier <= seen && forall i :: |earlier| <= i < |seen| ==> Between(before, seen[i], tag, index)
  }

  class Client {
    var g: Git
    const reliable: bool
    const listingWorks: bool
    /** Every state the upstream repository was put in, in order. */
    ghost var seen: seq<Upstream>

    constructor (g: Git, reliable: bool, listingWorks: bool)
      ensures this.g == g && this.reliable == reliable && this.listingWorks == listingWorks && seen == []
    {
      this.g := g;
      this.reliable := reliable;
      this.listingWorks := listingWorks;
      seen := [];
    }

    method TagExists(tag: string) returns (l: Lookup)
      ensures l == LookupTag(g, tag, l != ListFailed)
      ensures listingWorks ==> l != ListFailed
    {
      var listed := *;
      listed := listed || listingWorks;
      l := LookupTag(g, tag, listed);
    }

    /** `DeleteTag`: locally first, then upstream; the second deletion can fail after the first is done. */
    method DeleteTag(tag: string) returns (ok: bool)
      modifies this
      ensures ok ==> tag in old(g).tags && tag in old(g).upstream.tags
      ensures ok ==> g == DeleteUpstream(DeleteLocal(old(g), tag), tag) && seen == old(seen) + [g.upstream]
      ensures !ok ==> (g == old(g) || g == DeleteLocal(old(g), tag)) && seen == old(seen)
      ensures reliable ==> (ok <==> tag in old(g).tags && tag in old(g).upstream.tags)
      ensures reliable && !ok ==> g == if tag in old(g).tags then DeleteLocal(old(g), tag) else old(g)
    {
      var fault := Fault(reliable);
      if fault || tag !in g.tags {
        return false;
      }
      g := DeleteLocal(g, tag);
      fault := Fault(reliable);
      if fault || tag !in g.upstream.tags {
        return false;
      }
      g := DeleteUpstream(g, tag);
      seen := seen + [g.upstream];
      ok := true;
    }

    /** The two pushes: first the branch, then the tags. */
    method PushBranchAndTags() returns (ok: bool)
      requires g.commits != []
      modifies this
      ensures ok ==> !Rejected(g.tags, old(g).upstream.tags) && g == PushTags(PushBranch(old(g)))
      ensures ok ==> seen == old(seen) + [PushBranch(old(g)).upstream, g.upstream]
      ensures !ok ==> (g == old(g) && seen == old(seen)) ||
                      (g == PushBranch(old(g)) && seen == old(seen) + [g.upstream])
      ensures reliable && !ok ==> Rejected(g.tags, old(g).upstream.tags) && g == PushBranch(old(g))
    {
      var fault := Fault(reliable);
      if fault {
        return false;
      }
      g := PushBranch(g);
      seen := seen + [g.upstream];
      fault := Fault(reliable);
      if fault || Rejected(g.tags, g.upstream.tags) {
        return false;
      }
      g := PushTags(g);
      seen := seen + [g.upstream];
      ok := true;
    }

    method CommitAndPushUpstream(snapshot: Snapshot, tag: string, tagExists: bool) returns (ok: bool)
      requires Synced(g) && tag != "" && g.upstream.head < |g.commits|
      modifies this
      ensures reliable ==> (g, ok) == Publish(old(g), snapshot, tag, tagExists)
      ensures old(g).commits <= g.commits
      ensures ok ==> PublishedAs(old(g), g, snapshot, tag) && (tagExists <==> tag in old(g).tags)
      ensures Between(old(g).upstream, g.upstream, tag, |old(g).commits|)
      ensures !(tagExists <==> tag in old(g).tags) ==> !ok && g.upstream == old(g).upstream
      ensures AllBetween(old(seen), seen, old(g).upstream, tag, |old(g).commits|)
    {
      PublishSynced(g, snapshot, tag, tagExists);
      var fault := Fault(reliable);
      if fault {
        return false;
      }
      g := g.(commits := g.commits + [snapshot]);
      if tagExists {
        var deleted := DeleteTag(tag);
        if !deleted {
          return false;
        }
      }
      fault := Fault(reliable);
      if fault || tag in g.tags {
        return false;
      }
      g := CreateTag(g, tag);
      ok := PushBranchAndTags();
    }
  }
}
