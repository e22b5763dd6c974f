/**
 The reconciler of the GitOps operator as a program
 (gitops-operator/controllers/keptngitrepository_controller.go:75-217 and the checkCreate/reconcile pairs such as
 gitops-operator/controllers/utils_keptnservice.go:16-74).
 */
module GitOpsReconciler {
  import opened Faults
  import opened Wrappers
  import opened GitOpsReconcile
  import opened GitOpsManifests

  datatype Outcome = SourceFailed | Unchanged | ParseFailed | ApplyFailed | CreatedOne | Finished

  class Reconciler {
    var store: Store
    var lastCommit: string
    /** The commits whose artifacts have been delivered. */
    var delivered: set<string>
    const reliable: bool

    constructor (store: Store, lastCommit: string, delivered: set<string>, reliable: bool)
      ensures this.store == store && this.lastCommit == lastCommit && this.delivered == delivered
      ensures this.reliable == reliable
    {
      this.store := store;
      this.lastCommit := lastCommit;
      this.delivered := delivered;
      this.reliable := reliable;
    }

    /** `reconcileService` and its copies for the other kinds. */
    method ReconcileObject(item: Item) returns (ok: bool)
      requires item.key in store
      modifies this`store
      ensures ok ==> store == ApplyOne(old(store), item).0
      ensures !ok ==> store == old(store)
      ensures reliable ==> ok
    {
      var fault := Fault(reliable);
      if fault {
        return false;
      }
      if store[item.key].appliedHash != Some(HashOf(item.spec)) {
        fault := Fault(reliable);
        if fault {
          return false;
        }
        store := store[item.key := Fresh(item.spec)];
      }
      ok := true;
    }

    /** `checkCreateService` and its copies for the other kinds. */
    method CheckCreate(item: Item) returns (ok: bool, created: bool)
      modifies this`store
      ensures ok ==> (store, created) == ApplyOne(old(store), item)
      ensures !ok ==> store == old(store)
      ensures reliable ==> ok
    {
      var fault := Fault(reliable);
      if fault {
        return false, false;
      }
      if item.key !in store {
        fault := Fault(reliable);
        if fault {
          return false, false;
        }
        store := store[item.key := Fresh(item.spec)];
        return true, true;
      }
      ok := ReconcileObject(item);
      created := false;
    }

    /** The loop over the manifests of one kind, with its early returns; `upto` is how far it got. */
    method ApplyKind(items: seq<Item>) returns (ok: bool, created: bool, ghost upto: nat)
      modifies this`store
      ensures upto <= |items| && store == ApplyAll(old(store), items[..upto]).0
      ensures ok ==> (store, created) == ApplyAll(old(store), items)
      ensures !ok ==> !ApplyAll(old(store), items[..upto]).1
      ensures reliable ==> ok
    {
      ghost var s := store;
      ok, created, upto := true, false, 0;
      for i := 0 to |items|
        invariant ok && !created && upto == i && ApplyAll(s, items[..i]) == (store, false)
      {
        ghost var before := store;
        ok, created := CheckCreate(items[i]);
        assert items[..i + 1] == items[..i] + [items[i]] && items == items[..i + 1] + items[i + 1..];
        ApplyConcat(s, items[..i], [items[i]]);
        ApplyConcat(s, items[..i + 1], items[i + 1..]);
        assert ApplyAll(before, [items[i]]) == ApplyOne(before, items[i]);
        if !ok {
          return;
        }
        upto := i + 1;
        if created {
          return;
        }
      }
      assert items[..|items|] == items;
    }

    /** The loops of one half of a run, one after the other. */
    method ApplyKinds(kinds: seq<seq<Item>>) returns (ok: bool, created: bool, ghost upto: nat)
      modifies this`store
      ensures upto <= |Joined(kinds)| && store == ApplyAll(old(store), Joined(kinds)[..upto]).0
      ensures ok ==> (store, created) == ApplyAll(old(store), Joined(kinds))
      ensures !ok ==> !ApplyAll(old(store), Joined(kinds)[..upto]).1
      ensures reliable ==> ok
      decreases |kinds|
    {
      if kinds == [] {
        return true, false, 0;
      }
      ghost var s, first, rest := store, kinds[0], Joined(kinds[1..]);
      ok, created, upto := ApplyKind(kinds[0]);
      ghost var all := Joined(kinds);
      assert all[..upto] == first[..upto];
      ApplyConcat(s, first, rest);
      if !ok || created {
        return;
      }
      ghost var before, n := store, |first|;
      ok, created, upto := ApplyKinds(kinds[1..]);
      ApplyConcat(s, first, rest[..upto]);
      assert all[..n + upto] == first + rest[..upto];
      upto := n + upto;
    }

    /** `updateStatusResult`: a failed status write is only logged. */
    method UpdateStatusResult(commit: string)
      modifies this`lastCommit
      ensures lastCommit == commit || lastCommit == old(lastCommit)
      ensures reliable ==> lastCommit == commit
    {
      var fault := Fault(reliable);
      if !fault {
        lastCommit := commit;
      }
    }

    /**
     `Reconcile` for a repository that exists: `commit` is the head of its branch, when it can be determined,
     `manifests` what the checkout parses to, and `deliveryWorks` whether the artifacts can be delivered.
     */
    method Reconcile(commit: Option<string>, manifests: Option<Manifests>, deliveryWorks: bool)
      returns (out: Outcome, ghost upto: nat)
      modifies this
      ensures commit == None || manifests == None ==>
        store == old(store) && lastCommit == old(lastCommit) && delivered == old(delivered)
      ensures commit.Some? && manifests.Some? && reliable ==>
        Ledger(State(store, lastCommit), delivered) ==
        Turn(Ledger(State(old(store), old(lastCommit)), old(delivered)), commit.value,
             HalvesOf(manifests.value), deliveryWorks)
      ensures manifests.Some? ==> upto <= |Applied(manifests.value)|
      ensures manifests.Some? ==> store == ApplyAll(old(store), Applied(manifests.value)[..upto]).0
      ensures lastCommit != old(lastCommit) ==> commit == Some(lastCommit) && manifests.Some?
      ensures lastCommit != old(lastCommit) ==> ApplyAll(old(store), Applied(manifests.value)) == (store, false)
      // Even with failing calls: a commit is recorded only when all of it is applied.
      ensures lastCommit != old(lastCommit) && Truthful(old(store), Keys(Applied(manifests.value))) ==>
        AllApplied(store, Applied(manifests.value))
      ensures lastCommit != old(lastCommit) && Truthful(old(store), old(store).Keys) ==>
        CommitApplied(store, manifests.value)
      // The run that records a commit has tried to deliver it, whatever came of that.
      ensures lastCommit != old(lastCommit) ==>
        delivered == old(delivered) + if deliveryWorks then {lastCommit} else {}
    {
      ghost var s := store;
      upto := 0;
      if commit == None {
        return SourceFailed, upto;
      }
      if commit.value == lastCommit {
        return Unchanged, upto;
      }
      if manifests == None {
        return ParseFailed, upto;
      }
      var ok, created;
      ok, created, upto := Apply(commit.value, manifests.value, deliveryWorks);
      if !ok {
        return ApplyFailed, upto;
      }
      if created {
        return CreatedOne, upto;
      }
      if Truthful(s, Keys(Applied(manifests.value))) {
        FullPassApplies(s, Applied(manifests.value));
        AppliedByLists(store, manifests.value);
      }
      UpdateStatusResult(commit.value);
      out := Finished;
    }

    /** `deliverArtifacts`, whose error is only logged. */
    method DeliverArtifacts(commit: string, works: bool)
      modifies this`delivered
      ensures delivered == old(delivered) + if works then {commit} else {}
    {
      if works {
        delivered := delivered + {commit};
      }
    }

    /** The two halves of a run and the delivery between them. */
    method Apply(commit: string, m: Manifests, deliveryWorks: bool) returns (ok: bool, created: bool, ghost upto: nat)
      modifies this`store, this`delivered
      ensures upto <= |Applied(m)| && store == ApplyAll(old(store), Applied(m)[..upto]).0
      ensures ok ==> (store, created) == ApplyAll(old(store), Applied(m))
      ensures ok && !created ==> delivered == old(delivered) + if deliveryWorks then {commit} else {}
      ensures delivered == old(delivered) || (deliveryWorks && delivered == old(delivered) + {commit})
      ensures ok && ApplyAll(old(store), Joined(EarlyKinds(m))).1 ==> delivered == old(delivered)
      ensures ok && !ApplyAll(old(store), Joined(EarlyKinds(m))).1 && deliveryWorks ==>
        delivered == old(delivered) + {commit}
      ensures reliable ==> ok
    {
      ghost var s, early, late := store, Joined(EarlyKinds(m)), Joined(LateKinds(m));
      ApplyConcat(s, early, late);
      ok, created, upto := ApplyKinds(EarlyKinds(m));
      assert Applied(m)[..upto] == early[..upto];
      if !ok || created {
        return;
      }
      ghost var n := |early|;
      DeliverArtifacts(commit, deliveryWorks);
      ok, created, upto := ApplyKinds(LateKinds(m));
      ApplyConcat(s, early, late[..upto]);
      assert Applied(m)[..n + upto] == early + late[..upto];
      upto := n + upto;
    }
  }
}
