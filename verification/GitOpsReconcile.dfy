/**
 The reconcile loop of the GitOps operator: the manifests of a commit are applied one creation per run, and the commit
 is recorded once nothing is left to create (gitops-operator/controllers/keptngitrepository_controller.go:75-217 and the
 checkCreate/reconcile pairs such as gitops-operator/controllers/utils_keptnservice.go:16-74).
 */
module GitOpsReconcile {
  import opened Wrappers

  datatype Kind =
    Instance | Sequence | Stage | Project | Service | SequenceExecution | ServiceDeployment | ScheduledExec

  type Spec = string

  /** The structure hash: a value of its own, so that equal hashes mean equal specs. */
  datatype Hash = HashOf(spec: Spec)

  /** A stored object; its annotation map exists and may hold the last applied hash. */
  datatype Object = Object(spec: Spec, appliedHash: Option<Hash>)

  type Key = (Kind, string)
  type Store = map<Key, Object>

  datatype Manifest = Manifest(name: string, spec: Spec)

  datatype Item = Item(key: Key, spec: Spec)

  /** What `parseKeptnManifests` collects; the scheduled executions are parsed and never applied. */
  datatype Manifests = Manifests(instances: seq<Manifest>, sequences: seq<Manifest>, stages: seq<Manifest>,
                                 projects: seq<Manifest>, services: seq<Manifest>, executions: seq<Manifest>,
                                 deployments: seq<Manifest>, scheduled: seq<Manifest>)

  function Items(kind: Kind, ms: seq<Manifest>): seq<Item> {
    seq(|ms|, i requires 0 <= i < |ms| => Item((kind, ms[i].name), ms[i].spec))
  }

  function Joined(kinds: seq<seq<Item>>): seq<Item> {
    if kinds == [] then [] else kinds[0] + Joined(kinds[1..])
  }

  /** Applied before the artifacts are delivered. */
  function EarlyKinds(m: Manifests): seq<seq<Item>> {
    [Items(Instance, m.instances), Items(Sequence, m.sequences), Items(Stage, m.stages), Items(Project, m.projects)]
  }

  function LateKinds(m: Manifests): seq<seq<Item>> {
    [Items(Service, m.services), Items(SequenceExecution, m.executions), Items(ServiceDeployment, m.deployments)]
  }

  /** Everything a run applies, in order. */
  function Applied(m: Manifests): seq<Item> {
    Joined(EarlyKinds(m)) + Joined(LateKinds(m))
  }

  function Keys(items: seq<Item>): set<Key> {
    set i | i in items :: i.key
  }

  // ---------- One item, one pass, one run ----------

  function Fresh(spec: Spec): Object {
    Object(spec, Some(HashOf(spec)))
  }

  /** `checkCreate*` and `reconcile*`: create what is missing, overwrite what carries another hash. */
  function ApplyOne(store: Store, item: Item): (Store, bool) {
    if item.key !in store then (store[item.key := Fresh(item.spec)], true)
    else if store[item.key].appliedHash != Some(HashOf(item.spec)) then (store[item.key := Fresh(item.spec)], false)
    else (store, false)
  }

  /** A pass stops at the first object it creates. */
  function ApplyAll(store: Store, items: seq<Item>): (Store, bool) {
    if items == [] then (store, false)
    else
      var (s, created) := ApplyOne(store, items[0]);
      if created then (s, true) else ApplyAll(s, items[1..])
  }

  datatype State = State(store: Store, lastCommit: string)

  function Run(st: State, commit: string, items: seq<Item>): State {
    if st.lastCommit == commit then st
    else
      var (store, created) := ApplyAll(st.store, items);
      State(store, if created then st.lastCommit else commit)
  }

  function Runs(n: nat, st: State, commit: string, items: seq<Item>): State {
    if n == 0 then st else Runs(n - 1, Run(st, commit, items), commit, items)
  }

  lemma {:induction false} ApplyConcat(store: Store, xs: seq<Item>, ys: seq<Item>)
    ensures ApplyAll(store, xs + ys) ==
            if ApplyAll(store, xs).1 then ApplyAll(store, xs) else ApplyAll(ApplyAll(store, xs).0, ys)
    decreases xs
  {
    if xs == [] {
      assert xs + ys == ys;
    } else {
      assert (xs + ys)[1..] == xs[1..] + ys;
      ApplyConcat(ApplyOne(store, xs[0]).0, xs[1..], ys);
    }
  }

  // ---------- What a pass does ----------

  /** A pass creates exactly one missing object, or there was none to create; other kinds and names are untouched. */
  lemma {:induction false} PassCreatesOne(store: Store, items: seq<Item>)
    ensures var (s, created) := ApplyAll(store, items);
      && (forall k :: k !in Keys(items) ==> (k in s <==> k in store) && (k in s ==> s[k] == store[k]))
      && (created ==> exists k :: k in Keys(items) && k !in store && s.Keys == store.Keys + {k})
      && (!created ==> s.Keys == store.Keys && Keys(items) <= store.Keys)
    decreases items
  {
    if items != [] {
      var (s, created) := ApplyOne(store, items[0]);
      var k := items[0].key;
      assert k in Keys(items);
      assert forall i :: i in items <==> i == items[0] || i in items[1..];
      assert Keys(items) == {k} + Keys(items[1..]);
      if created {
        assert s.Keys == store.Keys + {k};
      } else {
        PassCreatesOne(s, items[1..]);
        assert s.Keys == store.Keys;
      }
    }
  }

  /** Whatever carries a hash carries the hash of its own spec. */
  ghost predicate Truthful(store: Store, keys: set<Key>) {
    forall k :: k in keys && k in store && store[k].appliedHash.Some? ==>
      store[k].appliedHash.value == HashOf(store[k].spec)
  }

  lemma {:induction false} PassKeepsTruthful(store: Store, items: seq<Item>, keys: set<Key>)
    requires Truthful(store, keys)
    ensures Truthful(ApplyAll(store, items).0, keys)
    decreases items
  {
    if items != [] {
      PassKeepsTruthful(ApplyOne(store, items[0]).0, items[1..], keys);
    }
  }

  /** The spec of the last manifest with a key. */
  function LastSpec(items: seq<Item>, k: Key): Spec
    requires k in Keys(items)
  {
    var i := items[|items| - 1];
    if i.key == k then i.spec
    else
      assert exists j :: j in items && j.key == k;
      assert forall j :: j in items && j != i ==> j in items[..|items| - 1];
      LastSpec(items[..|items| - 1], k)
  }

  ghost predicate AllApplied(store: Store, items: seq<Item>) {
    forall k :: k in Keys(items) ==> k in store && store[k] == Fresh(LastSpec(items, k))
  }

  /** A pass that creates nothing leaves every key with the spec of its last manifest. */
  lemma {:induction false} FullPassApplies(store: Store, items: seq<Item>)
    requires Truthful(store, Keys(items)) && !ApplyAll(store, items).1
    ensures AllApplied(ApplyAll(store, items).0, items)
    decreases items
  {
    if items != [] {
      var front, last := items[..|items| - 1], items[|items| - 1];
      assert items == front + [last];
      ApplyConcat(store, front, [last]);
      assert forall i :: i in items <==> i in front || i == last;
      assert Keys(items) == Keys(front) + {last.key};
      var s := ApplyAll(store, front).0;
      FullPassApplies(store, front);
      PassKeepsTruthful(store, front, Keys(items));
      assert ApplyAll(s, [last]) == ApplyOne(s, last);
      var r := ApplyOne(s, last).0;
      forall k | k in Keys(items) ensures k in r && r[k] == Fresh(LastSpec(items, k)) {
        if k == last.key {
          assert s[k].appliedHash == Some(HashOf(last.spec)) ==> s[k] == Fresh(last.spec);
        }
      }
    }
  }

  // ---------- Convergence ----------

  function Missing(store: Store, items: seq<Item>): set<Key> {
    Keys(items) - store.Keys
  }

  lemma PassCreatesExactly(store: Store, items: seq<Item>)
    ensures ApplyAll(store, items).1 <==> Missing(store, items) != {}
  {
    PassCreatesOne(store, items);
    if ApplyAll(store, items).1 {
      var k :| k in Keys(items) && k !in store;
      assert k in Missing(store, items);
    }
  }

  /** A run that finds objects missing creates exactly one of them and records nothing. */
  lemma RunCreatesOne(st: State, commit: string, items: seq<Item>)
    requires st.lastCommit != commit
    ensures var r := Run(st, commit, items);
      if Missing(st.store, items) == {} then r.lastCommit == commit && Missing(r.store, items) == {}
      else r.lastCommit == st.lastCommit && |Missing(r.store, items)| == |Missing(st.store, items)| - 1
  {
    PassCreatesOne(st.store, items);
    var (s, created) := ApplyAll(st.store, items);
    if created {
      var k :| k in Keys(items) && k !in st.store && s.Keys == st.store.Keys + {k};
      assert Missing(s, items) == Missing(st.store, items) - {k};
      assert k in Missing(st.store, items);
    } else {
      assert Missing(st.store, items) == {};
    }
  }

  lemma {:induction false} RecordedStays(n: nat, st: State, commit: string, items: seq<Item>)
    requires st.lastCommit == commit
    ensures Runs(n, st, commit, items) == st
  {
    if n > 0 { RecordedStays(n - 1, st, commit, items); }
  }

  /** The commit is recorded exactly by run number (missing objects) + 1, never earlier. */
  lemma RecordedExactly(n: nat, st: State, commit: string, items: seq<Item>)
    requires st.lastCommit != commit
    ensures Runs(n, st, commit, items).lastCommit == commit <==> n > |Missing(st.store, items)|
  {
    RecordedAfter(n, st, commit, items, |Missing(st.store, items)|);
  }

  lemma {:induction false} RecordedAfter(n: nat, st: State, commit: string, items: seq<Item>, missing: nat)
    requires st.lastCommit != commit && |Missing(st.store, items)| == missing
    ensures Runs(n, st, commit, items).lastCommit == commit <==> n > missing
    decreases n
  {
    if n > 0 {
      var next := Run(st, commit, items);
      RunCreatesOne(st, commit, items);
      if missing == 0 {
        RecordedStays(n - 1, next, commit, items);
      } else {
        RecordedAfter(n - 1, next, commit, items, missing - 1);
      }
    }
  }

  /** Every run keeps hashes truthful and leaves all other objects alone; a recorded commit is fully applied. */
  lemma {:induction false} RunsKeep(n: nat, st: State, commit: string, items: seq<Item>)
    requires Truthful(st.store, Keys(items)) && st.lastCommit != commit
    ensures var r := Runs(n, st, commit, items);
      && Truthful(r.store, Keys(items))
      && (forall k :: k !in Keys(items) ==> (k in r.store <==> k in st.store))
      && (forall k :: k !in Keys(items) && k in r.store ==> r.store[k] == st.store[k])
      && (r.lastCommit == commit ==> AllApplied(r.store, items))
    decreases n
  {
    if n > 0 {
      var next := Run(st, commit, items);
      PassKeepsTruthful(st.store, items, Keys(items));
      PassCreatesOne(st.store, items);
      if next.lastCommit == commit {
        FullPassApplies(st.store, items);
        RecordedStays(n - 1, next, commit, items);
      } else {
        RunsKeep(n - 1, next, commit, items);
      }
    }
  }

  lemma {:induction false} RunsAdd(m: nat, n: nat, st: State, commit: string, items: seq<Item>)
    ensures Runs(m + n, st, commit, items) == Runs(n, Runs(m, st, commit, items), commit, items)
    decreases m
  {
    if m > 0 { RunsAdd(m - 1, n, Run(st, commit, items), commit, items); }
  }

  /** From any state, (missing objects) + 1 runs apply and record the commit, and any further runs change nothing. */
  lemma Converges(m: nat, more: nat, st: State, commit: string, items: seq<Item>)
    requires Truthful(st.store, Keys(items)) && st.lastCommit != commit && m == |Missing(st.store, items)| + 1
    ensures Runs(m, st, commit, items).lastCommit == commit && AllApplied(Runs(m, st, commit, items).store, items)
    ensures Runs(m + more, st, commit, items) == Runs(m, st, commit, items)
  {
    RecordedExactly(m, st, commit, items);
    RunsKeep(m, st, commit, items);
    FurtherRuns(m, more, st, commit, items);
  }

  lemma FurtherRuns(m: nat, more: nat, st: State, commit: string, items: seq<Item>)
    requires Runs(m, st, commit, items).lastCommit == commit
    ensures Runs(m + more, st, commit, items) == Runs(m, st, commit, items)
  {
    RunsAdd(m, more, st, commit, items);
    RecordedStays(more, Runs(m, st, commit, items), commit, items);
  }

  // ---------- Without truthful hashes ----------

  /** All manifests of a key agree. */
  ghost predicate SameSpec(items: seq<Item>, k: Key, spec: Spec) {
    forall i :: i in items && i.key == k ==> i.spec == spec
  }

  /**
   An object edited by hand is repaired exactly when its hash is not already that of the manifest: the hash is compared,
   the spec is not.
   */
  lemma {:induction false} DriftRepairedExactly(store: Store, items: seq<Item>, k: Key, spec: Spec)
    requires k in store && k in Keys(items) && SameSpec(items, k, spec) && !ApplyAll(store, items).1
    ensures var s := ApplyAll(store, items).0;
      k in s && (s[k].spec == spec <==> !(store[k].appliedHash == Some(HashOf(spec)) && store[k].spec != spec))
  {
    PassCreatesOne(store, items);
    DriftOf(store, items, k, spec);
  }

  lemma {:induction false} DriftOf(store: Store, items: seq<Item>, k: Key, spec: Spec)
    requires k in store && SameSpec(items, k, spec) && !ApplyAll(store, items).1
    ensures var s := ApplyAll(store, items).0;
      k in s && s[k] ==
                if k !in Keys(items) || store[k].appliedHash == Some(HashOf(spec)) then store[k] else Fresh(spec)
    decreases items
  {
    if items != [] {
      assert forall i :: i in items <==> i == items[0] || i in items[1..];
      assert Keys(items) == {items[0].key} + Keys(items[1..]);
      DriftOf(ApplyOne(store, items[0]).0, items[1..], k, spec);
    }
  }

  lemma {:induction false} JoinedMembers(kinds: seq<seq<Item>>, kind: Kind)
    requires forall i :: 0 <= i < |kinds| ==> forall x :: x in kinds[i] ==> x.key.0 != kind
    ensures forall x :: x in Joined(kinds) ==> x.key.0 != kind
  {
    if kinds != [] { JoinedMembers(kinds[1..], kind); }
  }

  /** A scheduled execution never reaches the cluster. */
  lemma ScheduledNeverApplied(n: nat, st: State, commit: string, m: Manifests, name: string)
    requires Truthful(st.store, Keys(Applied(m))) && st.lastCommit != commit
    ensures (ScheduledExec, name) in Runs(n, st, commit, Applied(m)).store <==> (ScheduledExec, name) in st.store
  {
    JoinedMembers(EarlyKinds(m), ScheduledExec);
    JoinedMembers(LateKinds(m), ScheduledExec);
    RunsKeep(n, st, commit, Applied(m));
  }

  // ---------- Runs with the delivery between their halves ----------

  /** A state together with the commits whose artifacts have been delivered. */
  datatype Ledger = Ledger(state: State, delivered: set<string>)

  /** What is applied before and after the delivery. */
  datatype Halves = Halves(early: seq<Item>, late: seq<Item>)
  {
    function All(): seq<Item> {
      early + late
    }
  }

  function HalvesOf(m: Manifests): Halves {
    Halves(Joined(EarlyKinds(m)), Joined(LateKinds(m)))
  }

  /** The run gets as far as the delivery: nothing had to be created before it. */
  predicate Attempts(st: State, commit: string, h: Halves) {
    st.lastCommit != commit && !ApplyAll(st.store, h.early).1
  }

  /** One run; `works` is whether a delivery would succeed. Its error is only logged. */
  function Turn(l: Ledger, commit: string, h: Halves, works: bool): Ledger {
    Ledger(Run(l.state, commit, h.All()),
           if Attempts(l.state, commit, h) && works then l.delivered + {commit} else l.delivered)
  }
}
