/**
 Deliveries over all orders of the services, one that fails and one that moves a protected tag, and a delivery run twice
 (gitops-operator/controllers/utils_artifactdelivery.go:34-88).
 */
module DeliveryOrders {
  import opened Wrappers
  import opened FileTree
  import opened GitClient
  import opened Delivery
  import opened DeliveryLog
  import opened DeliveryRun

  // ---------- All orders ----------

  /** Some service gets stuck, with listing at work. */
  ghost predicate SomeStuck(g: Git, services: Services, order: seq<Directory>) {
    exists i :: 0 <= i < |order| && StuckAt(g, services, order, AlwaysWorks(|order|), i)
  }

  /** Any order in which Go may range over the services will do. */
  ghost predicate EveryOrderWorks(g: Git, services: Services) {
    forall order :: OrderOf(order, services) ==> !SomeStuck(g, services, order)
  }

  /** The service's tag at the start. */
  function Own(services: Services, s: Directory): string {
    if s in services then TagOf(s, services[s]) else ""
  }

  predicate IsNew(g: Git, services: Services, s: Directory) {
    s in services && Own(services, s) !in g.tags && Own(services, s) !in g.tagObjects
  }

  predicate IsLightweight(g: Git, services: Services, s: Directory) {
    s in services && Own(services, s) in g.tags && Own(services, s) !in g.tagObjects
  }

  /** The tag was deleted, its tag object is still there, and the service may overwrite it. */
  predicate IsStale(g: Git, services: Services, s: Directory) {
    s in services && Own(services, s) !in g.tags && Own(services, s) in g.tagObjects && services[s].overwriteTag
  }

  /** The service may overwrite its tag, which is annotated or which another service has too. */
  ghost predicate MayReplace(g: Git, services: Services, s: Directory) {
    s in services && services[s].overwriteTag &&
    (Own(services, s) in g.tagObjects ||
     exists z :: z in services && z != s && Own(services, z) == Own(services, s))
  }

  /** A new tag and another one that may be replaced. */
  ghost predicate HasNewAndReplaced(g: Git, services: Services) {
    exists s, y :: MayReplace(g, services, s) && IsNew(g, services, y) && Own(services, s) != Own(services, y)
  }

  ghost predicate HasLightweight(g: Git, services: Services) {
    exists s :: s in services && IsLightweight(g, services, s)
  }

  ghost predicate HasStale(g: Git, services: Services) {
    exists s :: s in services && IsStale(g, services, s)
  }

  lemma {:induction false} SomeOrderOf(todo: set<Directory>) returns (order: seq<Directory>)
    ensures forall i, j :: 0 <= i < j < |order| ==> order[i] != order[j]
    ensures forall s :: s in order <==> s in todo
    decreases todo
  {
    order := [];
    if s :| s in todo {
      var rest := SomeOrderOf(todo - {s});
      order := [s] + rest;
      forall j | 0 < j < |order| ensures order[j] != s { assert order[j] in rest; }
    }
  }

  lemma StuckHasCause(g: Git, services: Services, order: seq<Directory>, i: nat)
    requires OrderOf(order, services) && StuckAt(g, services, order, AlwaysWorks(|order|), i)
    ensures HasStale(g, services) || HasLightweight(g, services) || HasNewAndReplaced(g, services)
  {
    var listed := AlwaysWorks(|order|);
    if Tagged(g, services, order, listed, i) {
      StuckTagged(g, services, order, i);
    } else {
      var j :| 0 <= j <= i && Raises(g, services, order, listed, j);
      StuckUntagged(g, services, order, i, j);
    }
  }

  lemma StuckTagged(g: Git, services: Services, order: seq<Directory>, i: nat)
    requires StuckAt(g, services, order, AlwaysWorks(|order|), i)
    requires Tagged(g, services, order, AlwaysWorks(|order|), i)
    ensures HasLightweight(g, services)
  {
    assert !Raises(g, services, order, AlwaysWorks(|order|), i);
    assert !Annotated(g, services, order, i);
    assert IsLightweight(g, services, order[i]);
  }

  lemma StuckUntagged(g: Git, services: Services, order: seq<Directory>, i: nat, j: nat)
    requires OrderOf(order, services) && StuckAt(g, services, order, AlwaysWorks(|order|), i) && j <= i
    requires !Tagged(g, services, order, AlwaysWorks(|order|), i)
    requires Raises(g, services, order, AlwaysWorks(|order|), j)
    ensures HasStale(g, services) || HasNewAndReplaced(g, services)
  {
    var listed := AlwaysWorks(|order|);
    if Annotated(g, services, order, i) {
      AnnotatedUntagged(g, services, order, listed, i);
      assert IsStale(g, services, order[i]);
    } else {
      assert IsNew(g, services, order[i]);
      ReplacesOther(g, services, order, j);
      assert MayReplace(g, services, order[j]) && Own(services, order[j]) != Own(services, order[i]);
    }
  }

  lemma ReplacesOther(g: Git, services: Services, order: seq<Directory>, j: nat)
    requires OrderOf(order, services) && Raises(g, services, order, AlwaysWorks(|order|), j)
    ensures MayReplace(g, services, order[j])
  {
    if TagIn(services, order, j) !in g.tagObjects {
      var k :| 0 <= k < j && TagIn(services, order, k) == TagIn(services, order, j);
      assert order[k] in order && order[k] != order[j];
    }
  }

  /**
   Every order works exactly if there is no lightweight tag, none that was deleted and left its tag object, and no new
   tag beside another one that may be replaced.
   */
  lemma EveryOrderExactly(g: Git, services: Services)
    ensures EveryOrderWorks(g, services) <==>
            !HasStale(g, services) && !HasLightweight(g, services) && !HasNewAndReplaced(g, services)
  {
    if s :| s in services && (IsStale(g, services, s) || IsLightweight(g, services, s)) {
      var order := StuckFirst(g, services, s);
    } else if HasNewAndReplaced(g, services) {
      var s, y :| MayReplace(g, services, s) && IsNew(g, services, y) && Own(services, s) != Own(services, y);
      var order := StuckBehind(g, services, s, y);
    } else {
      forall order | OrderOf(order, services) ensures !SomeStuck(g, services, order) {
        if i :| 0 <= i < |order| && StuckAt(g, services, order, AlwaysWorks(|order|), i) {
          StuckHasCause(g, services, order, i);
        }
      }
    }
  }

  /** An order that begins with the given services. */
  lemma OrderFrom(services: Services, first: seq<Directory>) returns (order: seq<Directory>)
    requires forall i, j :: 0 <= i < j < |first| ==> first[i] != first[j]
    requires forall s :: s in first ==> s in services
    ensures OrderOf(order, services) && first <= order
  {
    var rest := SomeOrderOf(services.Keys - set s | s in first);
    order := first + rest;
    forall i, j | 0 <= i < j < |order| ensures order[i] != order[j] {
      if i < |first| <= j { assert order[i] in first && order[j] in rest; }
    }
  }

  lemma StuckFirst(g: Git, services: Services, s: Directory) returns (order: seq<Directory>)
    requires IsStale(g, services, s) || IsLightweight(g, services, s)
    ensures OrderOf(order, services) && SomeStuck(g, services, order)
  {
    order := OrderFrom(services, [s]);
    assert AlwaysWorks(|order|)[0] && order[0] == s;
    RaisedNext(g, services, order, AlwaysWorks(|order|), 0);
    assert StuckAt(g, services, order, AlwaysWorks(|order|), 0);
  }

  lemma StuckBehind(g: Git, services: Services, s: Directory, y: Directory) returns (order: seq<Directory>)
    requires MayReplace(g, services, s) && IsNew(g, services, y) && Own(services, s) != Own(services, y)
    ensures OrderOf(order, services) && SomeStuck(g, services, order)
  {
    if Own(services, s) in g.tagObjects {
      order := OrderFrom(services, [s, y]);
      assert order[0] == [s, y][0] && order[1] == [s, y][1];
      StuckAfter(g, services, order, 1, Own(services, s));
    } else {
      var z :| z in services && z != s && Own(services, z) == Own(services, s);
      order := OrderFrom(services, [z, s, y]);
      assert order[0] == [z, s, y][0] && order[1] == [z, s, y][1] && order[2] == [z, s, y][2];
      StuckAfter(g, services, order, 2, Own(services, s));
    }
  }

  /** A new tag comes right after another one that is replaced. */
  lemma StuckAfter(g: Git, services: Services, order: seq<Directory>, n: nat, tag: string)
    requires 0 < n < |order| && IsNew(g, services, order[n])
    requires forall j :: 0 <= j < n ==> Own(services, order[j]) == tag
    requires Own(services, order[n]) != tag && (n > 1 || tag in g.tagObjects)
    requires order[n - 1] in services && services[order[n - 1]].overwriteTag
    ensures SomeStuck(g, services, order)
  {
    OwnTags(services, order, n, tag);
    ReplacedAt(g, services, order, n - 1, tag);
    NewUntagged(g, services, order, AlwaysWorks(|order|), n);
    StuckWhen(g, services, order, n);
  }

  lemma OwnTags(services: Services, order: seq<Directory>, n: nat, tag: string)
    requires n < |order| && forall j :: 0 <= j < n ==> Own(services, order[j]) == tag
    requires Own(services, order[n]) != tag
    ensures (forall j :: 0 <= j < n ==> TagIn(services, order, j) == tag) && !SharesTag(services, order, n)
  {
    forall j | 0 <= j <= n ensures TagIn(services, order, j) == Own(services, order[j]) {}
  }

  lemma StuckWhen(g: Git, services: Services, order: seq<Directory>, n: nat)
    requires 0 < n < |order| && order[n] in services && Raises(g, services, order, AlwaysWorks(|order|), n - 1)
    requires !Tagged(g, services, order, AlwaysWorks(|order|), n) && !Annotated(g, services, order, n)
    ensures SomeStuck(g, services, order)
  {
    assert StuckAt(g, services, order, AlwaysWorks(|order|), n);
  }

  lemma ReplacedAt(g: Git, services: Services, order: seq<Directory>, k: nat, tag: string)
    requires k < |order| && order[k] in services && services[order[k]].overwriteTag
    requires forall j :: 0 <= j <= k ==> TagIn(services, order, j) == tag
    requires k > 0 || tag in g.tagObjects
    ensures Raises(g, services, order, AlwaysWorks(|order|), k)
  {
    assert TagIn(services, order, 0) == TagIn(services, order, k);
  }

  lemma NewUntagged(g: Git, services: Services, order: seq<Directory>, listed: seq<bool>, i: nat)
    requires i < |order| && IsNew(g, services, order[i]) && !SharesTag(services, order, i)
    ensures !Tagged(g, services, order, listed, i) && !Annotated(g, services, order, i)
  {}

  /**
   A new tag does not come after a replaced one, and a lightweight one does. Tags count as they are when the service is
   visited.
   */
  predicate WellOrdered(g: Git, services: Services, order: seq<Directory>, i: nat)
    requires i < |order|
  {
    var behind := Raised(g, services, order, AlwaysWorks(|order|), i);
    && (!Tagged(g, services, order, AlwaysWorks(|order|), i) ==> !behind)
    && (!Annotated(g, services, order, i) && TagIn(services, order, i) in g.tags ==> behind)
  }

  lemma WellOrderedExactly(g: Git, services: Services, order: seq<Directory>, i: nat)
    requires g.tagObjects <= g.tags.Keys && i < |order| && order[i] in services
    ensures StuckAt(g, services, order, AlwaysWorks(|order|), i) <==> !WellOrdered(g, services, order, i)
  {
    StuckCases(g, services, order, i);
    if !Annotated(g, services, order, i) { OnlyTaggedAtStart(g, services, order, AlwaysWorks(|order|), i); }
  }

  /** On a clone, with listing at work and every copy possible, a run goes through exactly if every tag is in order. */
  lemma WorksExactly(r: Run, order: seq<Directory>, now: State, log: seq<Visited>, e: Option<DeliveryError>)
    requires Outcome(r, order, now, log, e) && (forall s :: s in order ==> r.Copies(s))
    requires r.listingWorks && r.filesReliable && r.gitReliable && r.g.tagObjects <= r.g.tags.Keys
    ensures e == None <==> forall i :: 0 <= i < |order| ==> WellOrdered(r.g, r.services, order, i)
  {
    ListingWorked(r, order, now, log, e);
    PushFailsExactly(r, order, AlwaysWorks(|order|), now, log, e);
    AllWellOrdered(r.g, r.services, order);
  }

  lemma AllWellOrdered(g: Git, services: Services, order: seq<Directory>)
    requires g.tagObjects <= g.tags.Keys && forall s :: s in order ==> s in services
    ensures SomeStuck(g, services, order) <==> !forall i :: 0 <= i < |order| ==> WellOrdered(g, services, order, i)
  {
    forall i | 0 <= i < |order|
      ensures StuckAt(g, services, order, AlwaysWorks(|order|), i) <==> !WellOrdered(g, services, order, i)
    {
      assert order[i] in order;
      WellOrderedExactly(g, services, order, i);
    }
  }

  /** A tag that is there without a tag object has been there from the start. */
  lemma OnlyTaggedAtStart(g: Git, services: Services, order: seq<Directory>, listed: seq<bool>, i: nat)
    requires i < |order| && !Annotated(g, services, order, i)
    ensures Tagged(g, services, order, listed, i) <==> TagIn(services, order, i) in g.tags
  {
    assert !SharesTag(services, order, i);
  }

  // ---------- Protected tags ----------

  /** Some service has the tag, and the tag has no object at the start or that service may overwrite it. */
  ghost predicate Exposed(r: Run, tag: string) {
    exists s :: s in r.services && Own(r.services, s) == tag && (tag !in r.g.tagObjects || r.services[s].overwriteTag)
  }

  /**
   In a run that went through, with listing at work: a tag has moved exactly if it was lightweight or new and some
   service has it, or some service that has it may overwrite it.
   */
  lemma ProtectedMovesExactly(r: Run, order: seq<Directory>, now: State, log: seq<Visited>, tag: string)
    requires Outcome(r, order, now, log, None) && OrderOf(order, r.services)
    requires r.listingWorks && r.filesReliable && r.gitReliable && Synced(r.g) && TagsExist(r.g)
    ensures TagAt(now.g.upstream.tags, tag) != TagAt(r.g.upstream.tags, tag) <==> Exposed(r, tag)
  {
    var listed := AlwaysWorks(|order|);
    ListingWorked(r, order, now, log, None);
    TagMovesExactly(r, order, listed, now, log, None, tag);
    RunFailsExactly(r, order, listed, now, log, None);
    if i :| 0 <= i < |order| && Moves(r, order, listed, i, tag) {
      TakerExposes(r, order, i, tag);
    }
    if Exposed(r, tag) {
      var i := ExposedTaken(r, order, tag);
      assert Moves(r, order, listed, i, tag);
    }
  }

  lemma TakerExposes(r: Run, order: seq<Directory>, i: nat, tag: string)
    requires OrderOf(order, r.services) && TakesTag(r.g, r.services, order, AlwaysWorks(|order|), i, tag)
    ensures Exposed(r, tag)
  {
    assert order[i] in order && Own(r.services, order[i]) == tag;
  }

  lemma ExposedTaken(r: Run, order: seq<Directory>, tag: string) returns (i: nat)
    requires OrderOf(order, r.services) && Exposed(r, tag)
    ensures TakesTag(r.g, r.services, order, AlwaysWorks(|order|), i, tag)
  {
    var s :| s in r.services && Own(r.services, s) == tag && (tag !in r.g.tagObjects || r.services[s].overwriteTag);
    assert s in order;
    i :| 0 <= i < |order| && order[i] == s;
    if tag !in r.g.tagObjects { i := FirstWithTag(r.services, order, i); }
  }

  // ---------- A run that fails, and one that moves a protected tag ----------

  const CART := Directory("cart", ["src", "cart"])
  const SHOP := Directory("shop", ["src", "shop"])
  const UP: Path := ["up"]

  /** The tag of "cart" may be overwritten. */
  const PAIR: Services := map[CART := Metadata("1", "0", None, true), SHOP := Metadata("1", "0", None, false)]

  /** An empty upstream clone beside the two service directories. */
  const SOURCES: Tree := map[[] := Dir, UP := Dir, ["src"] := Dir, CART.path := Dir, SHOP.path := Dir]

  lemma SourcesWellFormed()
    ensures WellFormed(SOURCES)
  {
    assert CART.path[..1] == ["src"] == SHOP.path[..1];
    assert ["src"][..0] == [] == UP[..0];
    forall p | p in SOURCES && p != [] ensures IsDir(SOURCES, p[..|p| - 1]) {}
  }

  lemma PairTags()
    ensures DistinctTags(PAIR) && OrderOf([CART, SHOP], PAIR)
    ensures TagOf(CART, PAIR[CART]) != TagOf(SHOP, PAIR[SHOP])
  {
    assert TagOf(CART, PAIR[CART])[0] == 'c' && TagOf(SHOP, PAIR[SHOP])[0] == 's';
    var order := [CART, SHOP];
    assert CART == order[0] && SHOP == order[1];
    assert forall s :: s in order <==> s == CART || s == SHOP;
  }

  lemma PairCopies()
    ensures Deliverable(SOURCES, UP, CART, PAIR[CART], []) && Deliverable(SOURCES, UP, SHOP, PAIR[SHOP], [])
    ensures SourcesApart(UP, CART, PAIR[CART], []) && SourcesApart(UP, SHOP, PAIR[SHOP], [])
  {
    assert UP[0] == "up" && CART.path[0] == "src" == SHOP.path[0];
    assert UP + ["base"] !in SOURCES by { assert |UP + ["base"]| == 2 && (UP + ["base"])[0] == "up"; }
  }

  const CART_TAG := TagOf(CART, PAIR[CART])
  const SHOP_TAG := TagOf(SHOP, PAIR[SHOP])

  ghost predicate PairRun(r: Run) {
    && r.services == PAIR && r.t == SOURCES && r.dir == UP && r.stages == []
    && r.listingWorks && r.filesReliable && r.gitReliable
  }

  /** The tag of "cart" is annotated: "shop" is stuck behind it if its own is new, but not if it is lightweight. */
  lemma PairStuck(g: Git, listed: seq<bool>)
    requires CART_TAG in g.tags && g.tagObjects == {CART_TAG} && listed == AlwaysWorks(2)
    ensures !StuckAt(g, PAIR, [CART, SHOP], listed, 0)
    ensures StuckAt(g, PAIR, [CART, SHOP], listed, 1) <==> SHOP_TAG !in g.tags
  {
    PairTags();
    var order := [CART, SHOP];
    assert order[0] == CART && order[1] == SHOP;
    assert TagIn(PAIR, order, 0) == CART_TAG && TagIn(PAIR, order, 1) == SHOP_TAG;
    assert Raises(g, PAIR, order, listed, 0) && !Annotated(g, PAIR, order, 1);
    OnlyTaggedAtStart(g, PAIR, order, listed, 1);
  }

  lemma PairCopied(r: Run)
    requires PairRun(r)
    ensures forall s :: s in r.services ==> r.Copies(s)
  {
    PairCopies();
  }

  lemma PairEnds(r: Run, now: State, log: seq<Visited>, e: Option<DeliveryError>)
    requires Outcome(r, [CART, SHOP], now, log, e) && PairRun(r)
    requires CART_TAG in r.g.tags && r.g.tagObjects == {CART_TAG}
    ensures e == if SHOP_TAG in r.g.tags then None else Some(PushFailed)
  {
    var order, listed := [CART, SHOP], AlwaysWorks(2);
    PairTags();
    PairCopied(r);
    PairStuck(r.g, listed);
    ListingWorked(r, order, now, log, e);
    PushFailsExactly(r, order, listed, now, log, e);
  }

  /** The upstream repository before the run: one commit, with the given tags; only that of "cart" is annotated. */
  function PairGit(tags: set<string>): Git {
    var tags := map t | t in tags :: OnBranch(0);
    Git([SnapshotOf(SOURCES, UP)], tags, {CART_TAG}, Upstream(0, tags))
  }

  lemma PairReady(tags: set<string>)
    ensures CleanHead(PairGit(tags), SOURCES, UP) && TagsExist(PairGit(tags))
  {
    SourcesWellFormed();
    FirstCommit(SOURCES, UP, map t | t in tags :: OnBranch(0), {CART_TAG});
  }

  lemma PairApart()
    ensures forall s :: s in PAIR ==> SourcesApart(UP, s, PAIR[s], [])
  {
    PairCopies();
  }

  lemma FirstCommit(t: Tree, dir: Path, tags: Tags, objects: set<string>)
    requires WellFormed(t) && IsDir(t, dir)
    ensures CleanHead(Git([SnapshotOf(t, dir)], tags, objects, Upstream(0, tags)), t, dir)
  {}

  /** The tag of "shop" is lightweight: a run that goes through moves it. */
  lemma PairMoves(r: Run, now: State, log: seq<Visited>)
    requires Outcome(r, [CART, SHOP], now, log, None) && PairRun(r) && Synced(r.g) && TagsExist(r.g)
    requires SHOP_TAG in r.g.tags && r.g.tagObjects == {CART_TAG}
    ensures TagAt(now.g.upstream.tags, SHOP_TAG) != TagAt(r.g.upstream.tags, SHOP_TAG)
  {
    PairTags();
    assert SHOP in r.services && Own(r.services, SHOP) == SHOP_TAG;
    ProtectedMovesExactly(r, [CART, SHOP], now, log, SHOP_TAG);
  }

  /** A run over "cart", then "shop", in which nothing fails for no reason and every copy succeeds. */
  method RunPair(tags: set<string>) returns (e: Option<DeliveryError>, g: Git)
    requires CART_TAG in tags
    ensures e == if SHOP_TAG in tags then None else Some(PushFailed)
    ensures SHOP_TAG in tags ==>
      TagAt(g.upstream.tags, SHOP_TAG) != TagAt(PairGit(tags).upstream.tags, SHOP_TAG) == Some(OnBranch(0))
  {
    PairReady(tags);
    PairTags();
    PairApart();
    var fs := new FileSystem(SOURCES, true);
    var git := new Client(PairGit(tags), true, true);
    ghost var log, r;
    e, log, r := ComposeData(fs, git, UP, PAIR, [], [CART, SHOP]);
    g := git.g;
    PairEnds(r, State(git.g, fs.tree, git.seen), log, e);
    if e == None { PairMoves(r, State(git.g, fs.tree, git.seen), log); }
  }

  /**
   The tag of "cart" is there and may be overwritten, that of "shop" is new: "shop" is not delivered when it is visited
   after "cart".
   */
  method NewAfterReplaced() returns (e: Option<DeliveryError>)
    ensures e == Some(PushFailed)
  {
    var g;
    e, g := RunPair({CART_TAG});
    PairTags();
  }

  /**
   The tag of "shop" is there too, lightweight, and may not be overwritten: the run goes through and moves it.
   */
  method LightweightMoves() returns (e: Option<DeliveryError>, g: Git)
    ensures e == None && !PAIR[SHOP].overwriteTag
    ensures TagAt(g.upstream.tags, SHOP_TAG) !=
            TagAt(PairGit({CART_TAG, SHOP_TAG}).upstream.tags, SHOP_TAG) == Some(OnBranch(0))
  {
    e, g := RunPair({CART_TAG, SHOP_TAG});
  }

  // ---------- Twice ----------

  /** A fresh clone of the upstream repository. */
  function CloneOf(g: Git): Git {
    Git(g.commits, g.upstream.tags, g.tagObjects * g.upstream.tags.Keys, g.upstream)
  }

  lemma {:induction false} ObjectsHaveTags(tags: Tags, objects: set<string>, n: nat, recs: seq<Record>,
                                           services: Services)
    requires objects <= tags.Keys
    ensures ObjectsAfter(objects, recs, services) <= TagsAfter(tags, n, recs, services).Keys
    decreases |recs|
  {
    if recs != [] { ObjectsHaveTags(tags, objects, n, recs[..|recs| - 1], services); }
  }

  /** A run that went through leaves nothing to publish for a run without overwriting on a fresh clone. */
  lemma NothingLeft(r: Run, order: seq<Directory>, now: State, log: seq<Visited>)
    requires Outcome(r, order, now, log, None) && OrderOf(order, r.services)
    requires r.g.tagObjects <= r.g.tags.Keys
    ensures CloneOf(now.g) == now.g && CleanHead(now.g, now.tree, r.dir)
    ensures forall s :: s in r.services ==> TagOf(s, r.services[s]) in now.g.tagObjects
  {
    FreshClone(r, now, log);
    AllTagged(r.g, log, r.services);
    EveryTagThere(r, order, log, now.g.tagObjects);
  }

  lemma FreshClone(r: Run, now: State, log: seq<Visited>)
    requires Completed(r, now, log) && r.g.tagObjects <= r.g.tags.Keys
    ensures CloneOf(now.g) == now.g && CleanHead(now.g, now.tree, r.dir)
  {
    ObjectsHaveTags(r.g.tags, r.g.tagObjects, |r.g.commits|, RecordsOf(log), r.services);
    assert now.g.tagObjects * now.g.upstream.tags.Keys == now.g.tagObjects;
  }

  lemma EveryTagThere(r: Run, order: seq<Directory>, log: seq<Visited>, objects: set<string>)
    requires OrderOf(order, r.services) && ServicesOf(log) <= order && |log| == |order|
    requires forall i :: 0 <= i < |log| ==> TaggedIn(objects, r.services, log[i].service)
    ensures forall s :: s in r.services ==> TagOf(s, r.services[s]) in objects
  {
    forall s | s in r.services ensures TagOf(s, r.services[s]) in objects {
      var i := PositionOf(order, log, s);
      assert TaggedIn(objects, r.services, log[i].service);
    }
  }

  lemma PositionOf(order: seq<Directory>, log: seq<Visited>, s: Directory) returns (i: nat)
    requires s in order && ServicesOf(log) <= order && |log| == |order|
    ensures i < |log| && log[i].service == s
  {
    i :| 0 <= i < |order| && order[i] == s;
    assert ServicesOf(log)[i] == s;
  }

  lemma IdleOutcome(r: Run, order: seq<Directory>, now: State, log: seq<Visited>, e: Option<DeliveryError>)
    requires Outcome(r, order, now, log, e) && r.listingWorks
    requires forall s :: s in r.services ==>
      TagOf(s, r.services[s]) in r.g.tagObjects && !r.services[s].overwriteTag
    ensures e == None && now == State(r.g, r.t, r.seen)
  {}

  /** Two runs on the same input, each on a fresh clone: without overwriting, the second one publishes nothing. */
  method ComposeTwice(fs: FileSystem, git: Client, dir: Path, services: Services, stages: seq<Directory>,
                      order: seq<Directory>, order2: seq<Directory>)
    returns (first: Option<DeliveryError>, second: Option<DeliveryError>, again: Client)
    requires CleanHead(git.g, fs.tree, dir) && DistinctNames(stages)
    requires OrderOf(order, services) && OrderOf(order2, services)
    requires forall s :: s in services ==> SourcesApart(dir, s, services[s], stages) && !services[s].overwriteTag
    requires git.g.tagObjects <= git.g.tags.Keys && git.listingWorks
    modifies fs, git
    ensures first == None ==> second == None && again.g.upstream == git.g.upstream && again.g.commits == git.g.commits
    ensures first == None ==> again.seen == []
  {
    ghost var log, r, log2, r2;
    first, log, r := ComposeData(fs, git, dir, services, stages, order);
    again := new Client(CloneOf(git.g), git.reliable, git.listingWorks);
    second := first;
    if first == None {
      NothingLeft(r, order, State(git.g, fs.tree, git.seen), log);
      second, log2, r2 := ComposeData(fs, again, dir, services, stages, order2);
      IdleOutcome(r2, order2, State(again.g, fs.tree, again.seen), log2, second);
    }
  }
}
