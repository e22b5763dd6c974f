/**
 Recorded and delivered commits: the artifacts are delivered in the middle of a run, and an error there is only logged
 (gitops-operator/controllers/keptngitrepository_controller.go:116-205).
 */
module GitOpsDelivery {
  import opened GitOpsReconcile

  /** Runs number 0 to `n - 1`; `works(i)` is whether a delivery by run `i` would succeed. */
  function Turns(n: nat, l: Ledger, commit: string, h: Halves, works: nat -> bool): Ledger {
    if n == 0 then l else Turn(Turns(n - 1, l, commit, h, works), commit, h, works(n - 1))
  }

  lemma {:induction false} TurnsAreRuns(n: nat, l: Ledger, commit: string, h: Halves, works: nat -> bool)
    ensures Turns(n, l, commit, h, works).state == Runs(n, l.state, commit, h.All())
  {
    if n > 0 {
      TurnsAreRuns(n - 1, l, commit, h, works);
      RunsAdd(n - 1, 1, l.state, commit, h.All());
    }
  }

  /** The number of objects missing before the delivery, and in all. */
  function Early(st: State, h: Halves): nat {
    |Missing(st.store, h.early)|
  }

  function InAll(st: State, h: Halves): nat {
    |Missing(st.store, h.All())|
  }

  /** A run gets to the delivery exactly if nothing is missing that is applied before it. */
  lemma AttemptsWhenCreated(st: State, commit: string, h: Halves)
    requires st.lastCommit != commit
    ensures Attempts(st, commit, h) <==> Early(st, h) == 0
  {
    PassCreatesExactly(st.store, h.early);
  }

  /** While something of that is missing, a run creates one of these. */
  lemma EarlyRun(st: State, commit: string, h: Halves, e: nat)
    requires st.lastCommit != commit && Early(st, h) == e
    ensures Early(Run(st, commit, h.All()), h) == if e == 0 then 0 else e - 1
  {
    PassCreatesExactly(st.store, h.early);
    ApplyConcat(st.store, h.early, h.late);
    if Missing(st.store, h.early) == {} {
      PassCreatesOne(st.store, h.All());
      assert Missing(Run(st, commit, h.All()).store, h.early) == {};
    } else {
      RunCreatesOne(st, commit, h.early);
    }
  }

  /** Until the commit is recorded, run `i` gets to the delivery exactly if the early objects have been created. */
  lemma {:induction false} AttemptsOnceCreated(i: nat, st: State, commit: string, h: Halves, e: nat)
    requires Runs(i, st, commit, h.All()).lastCommit != commit && Early(st, h) == e
    ensures Attempts(Runs(i, st, commit, h.All()), commit, h) <==> i >= e
    decreases i
  {
    if i == 0 {
      AttemptsWhenCreated(st, commit, h);
    } else {
      if st.lastCommit == commit { RecordedStays(i, st, commit, h.All()); }
      var next := Run(st, commit, h.All());
      EarlyRun(st, commit, h, e);
      AttemptsOnceCreated(i - 1, next, commit, h, if e == 0 then 0 else e - 1);
    }
  }

  /** With `e` objects missing before the delivery and `a` in all, exactly the runs number `e` to `a` attempt it. */
  lemma AttemptsExactly(i: nat, st: State, commit: string, h: Halves)
    requires st.lastCommit != commit
    ensures Attempts(Runs(i, st, commit, h.All()), commit, h) <==> Early(st, h) <= i <= InAll(st, h)
  {
    RecordedExactly(i, st, commit, h.All());
    if Runs(i, st, commit, h.All()).lastCommit != commit { AttemptsOnceCreated(i, st, commit, h, Early(st, h)); }
  }

  /** Run `i` delivers. */
  predicate Delivers(i: nat, st: State, commit: string, h: Halves, works: nat -> bool) {
    Attempts(Runs(i, st, commit, h.All()), commit, h) && works(i)
  }

  lemma {:induction false} DeliveredByRuns(n: nat, l: Ledger, commit: string, h: Halves, works: nat -> bool)
    ensures commit in Turns(n, l, commit, h, works).delivered <==>
            commit in l.delivered || exists i :: 0 <= i < n && Delivers(i, l.state, commit, h, works)
  {
    if n > 0 {
      DeliveredByRuns(n - 1, l, commit, h, works);
      TurnsAreRuns(n - 1, l, commit, h, works);
      assert Turns(n, l, commit, h, works) == Turn(Turns(n - 1, l, commit, h, works), commit, h, works(n - 1));
      assert commit in Turns(n, l, commit, h, works).delivered <==>
        commit in Turns(n - 1, l, commit, h, works).delivered || Delivers(n - 1, l.state, commit, h, works);
    }
  }

  /** Some run from `first` to `last` with a number below `end` could deliver. */
  predicate WorkedBetween(first: nat, last: nat, end: nat, works: nat -> bool) {
    exists i :: first <= i <= last && i < end && works(i)
  }

  /**
   A commit has been delivered after `n` runs if and only if one of the attempts at it worked, which are the runs from
   the last early creation to the one that records the commit. What they all failed to deliver is recorded all the same
   and never tried again.
   */
  lemma DeliveredExactly(n: nat, l: Ledger, commit: string, h: Halves, works: nat -> bool)
    requires l.state.lastCommit != commit
    ensures commit in Turns(n, l, commit, h, works).delivered <==>
            commit in l.delivered || WorkedBetween(Early(l.state, h), InAll(l.state, h), n, works)
  {
    DeliveredByRuns(n, l, commit, h, works);
    forall i: nat
      ensures Delivers(i, l.state, commit, h, works) <==> Early(l.state, h) <= i <= InAll(l.state, h) && works(i)
    {
      AttemptsExactly(i, l.state, commit, h);
    }
  }

  /** A commit is recorded without having been delivered exactly if every attempt at it failed. */
  lemma RecordedUndeliveredExactly(n: nat, l: Ledger, commit: string, h: Halves, works: nat -> bool)
    requires l.state.lastCommit != commit && commit !in l.delivered
    ensures var r := Turns(n, l, commit, h, works);
      r.state.lastCommit == commit && commit !in r.delivered <==>
      n > InAll(l.state, h) && forall i :: Early(l.state, h) <= i <= InAll(l.state, h) ==> !works(i)
  {
    DeliveredExactly(n, l, commit, h, works);
    TurnsAreRuns(n, l, commit, h, works);
    RecordedExactly(n, l.state, commit, h.All());
  }
}
