/**
 Which commits are recorded and never delivered, by what the repositories held: every delivery that a reconciliation
 attempts is a run of `composeData`
 (gitops-operator/controllers/keptngitrepository_controller.go:116-205,
 gitops-operator/controllers/utils_artifactdelivery.go:34-88).
 */
module CommitDelivery {
  import opened Wrappers
  import Delivery
  import DeliveryLog
  import DeliveryRun
  import GitOpsReconcile
  import GitOpsDelivery

  /** A run of `composeData`: what it was given, the order of its visits, how it ended. */
  datatype Attempt = Attempt(r: DeliveryRun.Run, order: seq<Delivery.Directory>, now: DeliveryRun.State,
                             log: seq<DeliveryLog.Visited>, e: Option<Delivery.DeliveryError>)
  {
    /** Nothing fails for no reason. */
    ghost predicate Faultless() {
      && DeliveryRun.Outcome(r, order, now, log, e)
      && r.listingWorks && r.filesReliable && r.gitReliable
    }

    /** Some service fails by what was there when the run started. */
    ghost predicate Doomed() {
      exists i :: 0 <= i < |order| && r.Fails(order, DeliveryLog.AlwaysWorks(|order|), i)
    }
  }

  lemma DoomedExactly(a: Attempt)
    requires a.Faultless()
    ensures a.e.Some? <==> a.Doomed()
  {
    DeliveryRun.ListingWorked(a.r, a.order, a.now, a.log, a.e);
    DeliveryRun.RunFailsExactly(a.r, a.order, DeliveryLog.AlwaysWorks(|a.order|), a.now, a.log, a.e);
  }

  /** Which of the tries go through. */
  function Works(tries: nat -> Attempt): nat -> bool {
    (i: nat) => tries(i).e == None
  }

  ghost predicate AllFaultless(first: nat, last: nat, tries: nat -> Attempt) {
    forall i :: first <= i <= last ==> tries(i).Faultless()
  }

  ghost predicate AllDoomed(first: nat, last: nat, tries: nat -> Attempt) {
    forall i :: first <= i <= last ==> tries(i).Doomed()
  }

  lemma AllDoomedExactly(first: nat, last: nat, tries: nat -> Attempt)
    requires AllFaultless(first, last, tries)
    ensures AllDoomed(first, last, tries) <==> forall i :: first <= i <= last ==> !Works(tries)(i)
  {
    forall i | first <= i <= last ensures tries(i).Doomed() <==> !Works(tries)(i) {
      assert tries(i).Faultless();
      DoomedExactly(tries(i));
    }
  }

  /**
   `tries(i)` is the delivery that reconciliation `i` makes if it gets there. After `n` of them the commit is recorded
   and has not been delivered if and only if every object has been created and each of the attempts, from the first
   reconciliation that finds all early objects to the one that finds all of them, met a service that fails.
   */
  lemma RecordedUndeliveredByServices(n: nat, l: GitOpsReconcile.Ledger, commit: string, h: GitOpsReconcile.Halves,
                                      tries: nat -> Attempt)
    requires l.state.lastCommit != commit && commit !in l.delivered
    requires AllFaultless(GitOpsDelivery.Early(l.state, h), GitOpsDelivery.InAll(l.state, h), tries)
    ensures var r := GitOpsDelivery.Turns(n, l, commit, h, Works(tries));
      r.state.lastCommit == commit && commit !in r.delivered <==>
      && n > GitOpsDelivery.InAll(l.state, h)
      && AllDoomed(GitOpsDelivery.Early(l.state, h), GitOpsDelivery.InAll(l.state, h), tries)
  {
    GitOpsDelivery.RecordedUndeliveredExactly(n, l, commit, h, Works(tries));
    AllDoomedExactly(GitOpsDelivery.Early(l.state, h), GitOpsDelivery.InAll(l.state, h), tries);
  }
}
