/**
 What the runs do with a commit, list by list of its manifests
 (gitops-operator/controllers/keptngitrepository_controller.go:128-205).
 */
module GitOpsManifests {
  import opened Wrappers
  import opened GitOpsReconcile

  /** The list of a kind. */
  function ListOf(m: Manifests, kind: Kind): seq<Manifest> {
    match kind
    case Instance => m.instances
    case Sequence => m.sequences
    case Stage => m.stages
    case Project => m.projects
    case Service => m.services
    case SequenceExecution => m.executions
    case ServiceDeployment => m.deployments
    case ScheduledExec => m.scheduled
  }

  /** The position of a kind among those that are applied; the first four come before the delivery. */
  function Rank(kind: Kind): nat {
    match kind
    case Instance => 0
    case Sequence => 1
    case Stage => 2
    case Project => 3
    case Service => 4
    case SequenceExecution => 5
    case ServiceDeployment => 6
    case ScheduledExec => 7
  }

  lemma OrderOfKinds()
    ensures Rank(Instance) < Rank(Sequence) < Rank(Stage) < Rank(Project) < Rank(Service) < Rank(SequenceExecution)
    ensures Rank(SequenceExecution) < Rank(ServiceDeployment) < Rank(ScheduledExec)
  {}

  function KindAt(rank: nat): Kind {
    match rank
    case 0 => Instance
    case 1 => Sequence
    case 2 => Stage
    case 3 => Project
    case 4 => Service
    case 5 => SequenceExecution
    case _ => ServiceDeployment
  }

  /** The last manifest of its name. */
  predicate LastOfName(ms: seq<Manifest>, i: nat) {
    i < |ms| && forall j :: i < j < |ms| ==> ms[j].name != ms[i].name
  }

  /** Every manifest is there, with the spec of the last one of its name and the hash of that spec. */
  ghost predicate ListApplied(store: Store, kind: Kind, ms: seq<Manifest>) {
    && (forall i :: 0 <= i < |ms| ==> (kind, ms[i].name) in store)
    && forall i :: 0 <= i < |ms| && LastOfName(ms, i) ==>
      store[(kind, ms[i].name)] == Object(ms[i].spec, Some(HashOf(ms[i].spec)))
  }

  ghost predicate CommitApplied(store: Store, m: Manifests) {
    forall kind: Kind :: kind != ScheduledExec ==> ListApplied(store, kind, ListOf(m, kind))
  }

  predicate Present(store: Store, kind: Kind, ms: seq<Manifest>) {
    forall i :: 0 <= i < |ms| ==> (kind, ms[i].name) in store
  }

  /** Everything that comes before the delivery is there. */
  predicate EarlyPresent(store: Store, m: Manifests) {
    && Present(store, Instance, m.instances) && Present(store, Sequence, m.sequences)
    && Present(store, Stage, m.stages) && Present(store, Project, m.projects)
  }

  /** The items of the kinds from `rank` to `end - 1`. */
  function Ranked(m: Manifests, rank: nat, end: nat): seq<Item>
    requires rank <= end <= 7
    decreases end - rank
  {
    if rank == end then [] else Items(KindAt(rank), ListOf(m, KindAt(rank))) + Ranked(m, rank + 1, end)
  }

  lemma HalvesRanked(m: Manifests)
    ensures Joined(EarlyKinds(m)) == Ranked(m, 0, 4) && Joined(LateKinds(m)) == Ranked(m, 4, 7)
  {
    var early, late := EarlyKinds(m), LateKinds(m);
    JoinedThree(early[1], early[2], early[3]);
    JoinedThree(late[0], late[1], late[2]);
    assert early[1..] == [early[1], early[2], early[3]];
    assert Ranked(m, 1, 4) == early[1] + (early[2] + (early[3] + Ranked(m, 4, 4))) by {
      assert Ranked(m, 2, 4) == early[2] + Ranked(m, 3, 4);
      assert Ranked(m, 3, 4) == early[3] + Ranked(m, 4, 4);
    }
    assert Ranked(m, 4, 7) == late[0] + (late[1] + (late[2] + Ranked(m, 7, 7))) by {
      assert Ranked(m, 5, 7) == late[1] + Ranked(m, 6, 7);
      assert Ranked(m, 6, 7) == late[2] + Ranked(m, 7, 7);
    }
  }

  lemma JoinedThree(a: seq<Item>, b: seq<Item>, c: seq<Item>)
    ensures Joined([a, b, c]) == a + (b + (c + []))
  {
    assert [a, b, c][1..] == [b, c] && [b, c][1..] == [c] && [c][1..] == [];
    assert Joined([b, c]) == b + Joined([c]) && Joined([c]) == c + Joined([]);
  }

  lemma {:induction false} RankedConcat(m: Manifests, rank: nat, mid: nat, end: nat)
    requires rank <= mid <= end <= 7
    ensures Ranked(m, rank, end) == Ranked(m, rank, mid) + Ranked(m, mid, end)
    decreases mid - rank
  {
    if rank < mid { RankedConcat(m, rank + 1, mid, end); }
  }

  lemma AppliedRanked(m: Manifests)
    ensures Applied(m) == Ranked(m, 0, 7)
  {
    HalvesRanked(m);
    RankedConcat(m, 0, 4, 7);
  }

  lemma RankOfKind(kind: Kind, rank: nat)
    requires rank < 7
    ensures Rank(KindAt(rank)) == rank && (kind != ScheduledExec ==> Rank(kind) < 7 && KindAt(Rank(kind)) == kind)
  {}

  /** A key is there for a manifest of its kind's list, if that kind is among those from `rank` on. */
  lemma {:induction false} RankedKeys(m: Manifests, rank: nat, end: nat, kind: Kind, name: string)
    requires rank <= end <= 7
    ensures (kind, name) in Keys(Ranked(m, rank, end)) <==>
            rank <= Rank(kind) < end && exists i :: 0 <= i < |ListOf(m, kind)| && ListOf(m, kind)[i].name == name
    decreases end - rank
  {
    if rank < end {
      var first, rest := Items(KindAt(rank), ListOf(m, KindAt(rank))), Ranked(m, rank + 1, end);
      RankedKeys(m, rank + 1, end, kind, name);
      RankOfKind(kind, rank);
      KeysConcat(first, rest);
      ItemKeys(KindAt(rank), ListOf(m, KindAt(rank)), kind, name);
    }
  }

  lemma KeysConcat(xs: seq<Item>, ys: seq<Item>)
    ensures Keys(xs + ys) == Keys(xs) + Keys(ys)
  {
    assert forall i :: i in xs + ys <==> i in xs || i in ys;
  }

  lemma ItemKeys(k: Kind, ms: seq<Manifest>, kind: Kind, name: string)
    ensures (kind, name) in Keys(Items(k, ms)) <==> kind == k && exists i :: 0 <= i < |ms| && ms[i].name == name
  {
    if i :| 0 <= i < |ms| && ms[i].name == name {
      assert Items(k, ms)[i] in Items(k, ms);
    }
    if (kind, name) in Keys(Items(k, ms)) {
      var x :| x in Items(k, ms) && x.key == (kind, name);
      var i :| 0 <= i < |ms| && Items(k, ms)[i] == x;
      assert ms[i].name == name;
    }
  }

  lemma {:induction false} LastSpecAt(items: seq<Item>, i: nat)
    requires i < |items| && forall j :: i < j < |items| ==> items[j].key != items[i].key
    ensures items[i].key in Keys(items) && LastSpec(items, items[i].key) == items[i].spec
  {
    assert items[i] in items;
    var n := |items| - 1;
    if i < n {
      assert items[n].key != items[i].key;
      LastSpecAt(items[..n], i);
    }
  }

  lemma LastSpecInside(pre: seq<Item>, items: seq<Item>, post: seq<Item>, i: nat)
    requires i < |items| && items[i].key !in Keys(post) && forall j :: i < j < |items| ==> items[j].key != items[i].key
    ensures var all := pre + (items + post);
      items[i].key in Keys(all) && LastSpec(all, items[i].key) == items[i].spec
  {
    var all := pre + (items + post);
    assert all[|pre| + i] == items[i];
    forall j | |pre| + i < j < |all| ensures all[j].key != items[i].key {
      if j < |pre| + |items| {
        assert all[j] == items[j - |pre|];
      } else {
        assert all[j] == post[j - |pre| - |items|] && all[j] in post;
      }
    }
    LastSpecAt(all, |pre| + i);
  }

  /** A kind's items among all that are applied: none of the later ones is of that kind. */
  lemma KindInside(m: Manifests, kind: Kind) returns (pre: seq<Item>, post: seq<Item>)
    requires kind != ScheduledExec
    ensures Applied(m) == pre + (Items(kind, ListOf(m, kind)) + post)
    ensures forall name :: (kind, name) !in Keys(post)
  {
    var rank := Rank(kind);
    RankOfKind(kind, 0);
    pre, post := Ranked(m, 0, rank), Ranked(m, rank + 1, 7);
    AppliedRanked(m);
    RankedConcat(m, 0, rank, 7);
    forall name ensures (kind, name) !in Keys(post) { RankedKeys(m, rank + 1, 7, kind, name); }
  }

  lemma AppliedByList(store: Store, m: Manifests, kind: Kind)
    requires AllApplied(store, Applied(m)) && kind != ScheduledExec
    ensures ListApplied(store, kind, ListOf(m, kind))
  {
    var ms := ListOf(m, kind);
    var pre, post := KindInside(m, kind);
    forall i | 0 <= i < |ms| ensures (kind, ms[i].name) in store {
      RankOfKind(kind, 0);
      AppliedRanked(m);
      RankedKeys(m, 0, 7, kind, ms[i].name);
    }
    forall i | 0 <= i < |ms| && LastOfName(ms, i)
      ensures store[(kind, ms[i].name)] == Object(ms[i].spec, Some(HashOf(ms[i].spec)))
    {
      LastSpecInside(pre, Items(kind, ms), post, i);
    }
  }

  /** What is applied is every manifest of the seven lists. */
  lemma AppliedByLists(store: Store, m: Manifests)
    requires AllApplied(store, Applied(m))
    ensures CommitApplied(store, m)
  {
    forall kind: Kind | kind != ScheduledExec ensures ListApplied(store, kind, ListOf(m, kind)) {
      AppliedByList(store, m, kind);
    }
  }

  /** Nothing is missing before the delivery exactly if every manifest of the first four kinds is there. */
  lemma EarlyExactly(store: Store, m: Manifests)
    ensures Missing(store, Joined(EarlyKinds(m))) == {} <==> EarlyPresent(store, m)
  {
    HalvesRanked(m);
    forall kind: Kind, name | Rank(kind) < 4
      ensures (kind, name) in Keys(Ranked(m, 0, 4)) <==>
              exists i :: 0 <= i < |ListOf(m, kind)| && ListOf(m, kind)[i].name == name
    {
      RankedKeys(m, 0, 4, kind, name);
    }
    if EarlyPresent(store, m) {
      forall k | k in Keys(Joined(EarlyKinds(m))) ensures k in store {
        RankedKeys(m, 0, 4, k.0, k.1);
        var i :| 0 <= i < |ListOf(m, k.0)| && ListOf(m, k.0)[i].name == k.1;
        PresentAt(store, m, k.0, i);
      }
    }
    if Missing(store, Joined(EarlyKinds(m))) == {} {
      forall rank | 0 <= rank < 4 ensures Present(store, KindAt(rank), ListOf(m, KindAt(rank))) {
        PresentFrom(store, m, rank);
      }
      assert Present(store, KindAt(0), m.instances) && Present(store, KindAt(1), m.sequences);
      assert Present(store, KindAt(2), m.stages) && Present(store, KindAt(3), m.projects);
    }
  }

  lemma PresentAt(store: Store, m: Manifests, kind: Kind, i: nat)
    requires EarlyPresent(store, m) && Rank(kind) < 4 && i < |ListOf(m, kind)|
    ensures (kind, ListOf(m, kind)[i].name) in store
  {}

  lemma PresentFrom(store: Store, m: Manifests, rank: nat)
    requires rank < 4 && Missing(store, Ranked(m, 0, 4)) == {}
    ensures Present(store, KindAt(rank), ListOf(m, KindAt(rank)))
  {
    var kind := KindAt(rank);
    forall i | 0 <= i < |ListOf(m, kind)| ensures (kind, ListOf(m, kind)[i].name) in store {
      RankedKeys(m, 0, 4, kind, ListOf(m, kind)[i].name);
      assert (kind, ListOf(m, kind)[i].name) !in Missing(store, Ranked(m, 0, 4));
    }
  }

  // Which object is created first.

  /** The object of manifest `i` of the kind is missing, and everything before it is there. */
  predicate FirstMissing(store: Store, m: Manifests, kind: Kind, i: nat) {
    && i < |ListOf(m, kind)| && Rank(kind) < 7 && (kind, ListOf(m, kind)[i].name) !in store
    && (forall j :: 0 <= j < i ==> (kind, ListOf(m, kind)[j].name) in store)
    && forall other: Kind :: Rank(other) < Rank(kind) ==> Present(store, other, ListOf(m, other))
  }

  lemma CreatesAt(store: Store, pre: seq<Item>, x: Item, post: seq<Item>)
    requires Missing(store, pre) == {} && x.key !in store
    ensures var (s, created) := ApplyAll(store, pre + ([x] + post));
      created && s.Keys == store.Keys + {x.key}
  {
    ApplyConcat(store, pre, [x] + post);
    PassCreatesOne(store, pre);
    var s := ApplyAll(store, pre).0;
    assert ([x] + post)[0] == x;
    PassCreatesExactly(store, pre);
  }

  /** A pass creates the first missing object, in the order of the kinds and of each list, and no other. */
  lemma CreatesFirst(store: Store, m: Manifests, kind: Kind, i: nat)
    requires FirstMissing(store, m, kind, i)
    ensures var (s, created) := ApplyAll(store, Applied(m));
      created && s.Keys == store.Keys + {(kind, ListOf(m, kind)[i].name)}
  {
    var items := Items(kind, ListOf(m, kind));
    var pre, post := Ranked(m, 0, Rank(kind)) + items[..i], items[i + 1..] + Ranked(m, Rank(kind) + 1, 7);
    AppliedAround(m, kind, i);
    BeforeFirst(store, m, kind, i);
    CreatesAt(store, pre, items[i], post);
  }

  lemma AppliedAround(m: Manifests, kind: Kind, i: nat)
    requires Rank(kind) < 7 && i < |ListOf(m, kind)|
    ensures var items := Items(kind, ListOf(m, kind));
      Applied(m) ==
      (Ranked(m, 0, Rank(kind)) + items[..i]) + ([items[i]] + (items[i + 1..] + Ranked(m, Rank(kind) + 1, 7)))
  {
    var items := Items(kind, ListOf(m, kind));
    RankOfKind(kind, 0);
    AppliedRanked(m);
    RankedConcat(m, 0, Rank(kind), 7);
    SplitAround(Ranked(m, 0, Rank(kind)), items, Ranked(m, Rank(kind) + 1, 7), i);
  }

  lemma SplitAround(pre: seq<Item>, items: seq<Item>, post: seq<Item>, i: nat)
    requires i < |items|
    ensures pre + (items + post) == (pre + items[..i]) + ([items[i]] + (items[i + 1..] + post))
  {
    assert items == items[..i] + ([items[i]] + items[i + 1..]);
  }

  lemma BeforeFirst(store: Store, m: Manifests, kind: Kind, i: nat)
    requires FirstMissing(store, m, kind, i)
    ensures Missing(store, Ranked(m, 0, Rank(kind)) + Items(kind, ListOf(m, kind))[..i]) == {}
  {
    var front, some := Ranked(m, 0, Rank(kind)), Items(kind, ListOf(m, kind))[..i];
    KeysConcat(front, some);
    forall k | k in Keys(front) ensures k in store {
      RankedKeys(m, 0, Rank(kind), k.0, k.1);
      var j :| 0 <= j < |ListOf(m, k.0)| && ListOf(m, k.0)[j].name == k.1;
      assert Present(store, k.0, ListOf(m, k.0));
    }
    forall k | k in Keys(some) ensures k in store {
      var x :| x in some && x.key == k;
      var j :| 0 <= j < i && some[j] == x;
    }
  }

  // ---------- One run, and all of them ----------

  ghost predicate AllPresent(store: Store, m: Manifests) {
    forall kind: Kind :: kind != ScheduledExec ==> Present(store, kind, ListOf(m, kind))
  }

  lemma AllPresentExactly(store: Store, m: Manifests)
    ensures Missing(store, Applied(m)) == {} <==> AllPresent(store, m)
  {
    AppliedRanked(m);
    if AllPresent(store, m) {
      forall k | k in Keys(Applied(m)) ensures k in store {
        RankedKeys(m, 0, 7, k.0, k.1);
        assert Present(store, k.0, ListOf(m, k.0));
      }
    }
    if Missing(store, Applied(m)) == {} {
      forall kind: Kind | kind != ScheduledExec ensures Present(store, kind, ListOf(m, kind)) {
        forall i | 0 <= i < |ListOf(m, kind)| ensures (kind, ListOf(m, kind)[i].name) in store {
          RankOfKind(kind, 0);
          RankedKeys(m, 0, 7, kind, ListOf(m, kind)[i].name);
          assert (kind, ListOf(m, kind)[i].name) !in Missing(store, Applied(m));
        }
      }
    }
  }

  /**
   One run on a commit that is not recorded, by its lists: it records the commit if every manifest of the seven lists is
   there, and then each has the spec of the last one of its name; else it creates the first that is missing. It delivers
   if every instance, sequence, stage and project is there.
   */
  lemma TurnByLists(l: Ledger, commit: string, m: Manifests, works: bool)
    requires l.state.lastCommit != commit && Truthful(l.state.store, l.state.store.Keys)
    ensures var r := Turn(l, commit, HalvesOf(m), works);
      && r.state.lastCommit == (if AllPresent(l.state.store, m) then commit else l.state.lastCommit)
      && (AllPresent(l.state.store, m) ==> CommitApplied(r.state.store, m) && r.state.store.Keys == l.state.store.Keys)
      && (forall kind: Kind, i: nat :: FirstMissing(l.state.store, m, kind, i) ==>
            r.state.store.Keys == l.state.store.Keys + {(kind, ListOf(m, kind)[i].name)})
      && r.delivered == (if works && EarlyPresent(l.state.store, m) then l.delivered + {commit} else l.delivered)
  {
    var store := l.state.store;
    AllPresentExactly(store, m);
    EarlyExactly(store, m);
    PassCreatesExactly(store, Applied(m));
    PassCreatesExactly(store, HalvesOf(m).early);
    PassCreatesOne(store, Applied(m));
    if AllPresent(store, m) {
      FullPassApplies(store, Applied(m));
      AppliedByLists(ApplyAll(store, Applied(m)).0, m);
    }
    forall kind: Kind, i: nat | FirstMissing(store, m, kind, i)
      ensures ApplyAll(store, Applied(m)).0.Keys == store.Keys + {(kind, ListOf(m, kind)[i].name)}
    {
      CreatesFirst(store, m, kind, i);
    }
  }

  /** Once a commit is recorded, after any number of runs, every manifest of its seven lists is applied. */
  lemma RecordedIsApplied(n: nat, st: State, commit: string, m: Manifests)
    requires st.lastCommit != commit && Truthful(st.store, st.store.Keys)
    requires Runs(n, st, commit, Applied(m)).lastCommit == commit
    ensures CommitApplied(Runs(n, st, commit, Applied(m)).store, m)
  {
    RunsKeep(n, st, commit, Applied(m));
    AppliedByLists(Runs(n, st, commit, Applied(m)).store, m);
  }
}
