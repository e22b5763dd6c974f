/**
 The project controller's `Reconcile` as a program: a run, with users and Keptn acting before each of its calls, is a
 run of the protocol of `ProjectFinalizer` from its read to its end
 (keptn-operator/controllers/keptnprojectcontroller/keptnproject_controller.go:71-157).
 */
module ProjectReconciler {
  import opened Wrappers
  import opened ProjectFinalizer
  import opened ProjectCalm

  /** What a run meets: how its calls go, and what happens before each of them. */
  datatype Env = Env(add: Outcome, seen: bool, mark: Outcome, decrypts: bool, accepted: bool, arrives: bool,
                     remove: Outcome, gaps: (seq<Outside>, seq<Outside>, seq<Outside>))

  /** Every call is answered and nobody acts in between. */
  predicate Calm(env: Env) {
    && env.add == Answered && env.mark == Answered && env.remove == Answered && env.decrypts && env.arrives
    && env.gaps == ([], [], [])
  }

  predicate NoCrash(acts: seq<Action>) {
    forall i :: 0 <= i < |acts| ==> acts[i] != Controller(Crash)
  }

  lemma RunExtends(w: World, acts: seq<Action>, a: Action)
    requires w.store.versions != []
    ensures Run(w, acts + [a]) == Act(Run(w, acts), a)
    ensures NoCrash(acts) && a != Controller(Crash) ==> NoCrash(acts + [a])
  {
    assert (acts + [a])[..|acts|] == acts;
  }

  class Reconciler {
    var versions: seq<Option<Object>>
    var shown: nat
    var nextUid: nat
    var project: bool
    var pending: nat
    var deletes: nat
    var log: seq<Event>
    /** Where the run is: it says what Keptn can still do about the request in hand. */
    var control: Control

    constructor ()
      ensures State() == START
    {
      versions, shown, nextUid := [None], 0, 0;
      project, pending, deletes, log, control := false, 0, 0, [], Idle;
    }

    ghost function State(): World
      reads this
    {
      World(Store(versions, shown, nextUid), control, Keptn(project, pending, deletes), log)
    }

    /** The store takes a new version, or lets an object under deletion without finalizers go. */
    method Put(o: Object)
      modifies this`versions, this`log
      ensures State() == Write(old(State()), o, control)
    {
      if o.deleting && !o.mine && !o.others {
        versions, log := versions + [None], log + [Vanished(o.uid)];
      } else {
        versions := versions + [Some(o)];
      }
    }

    /** One thing that users or Keptn do. */
    method Happen(x: Outside)
      requires versions != []
      modifies this
      ensures State() == OutsideAct(old(State()), x)
    {
      var last := versions[|versions| - 1];
      match x
      case Create(mine, others) =>
        if last == None {
          nextUid := nextUid + 1;
          Put(Object(nextUid - 1, false, mine, others, false));
        }
      case Delete =>
        if last.Some? && !last.value.deleting {
          Put(last.value.(deleting := true));
        }
      case Edit(others, exists') =>
        if last.Some? {
          Put(last.value.(others := others, projectExists := exists'));
        }
      case TakeCurrent =>
        if control.Awaiting? && !control.done {
          project, log := true, log + [Appeared];
          control := control.(done := true);
        }
      case TakeLate =>
        if pending > 0 {
          project, pending, log := true, pending - 1, log + [Appeared];
        }
      case DeleteLate =>
        if deletes > 0 {
          project, deletes, log := false, deletes - 1, log + [Disappeared];
        }
    }

    /** The controller stays where it was, but for a create that takes effect. */
    predicate StaysAt(was: Control)
      reads this`control
    {
      if was.Awaiting? then control.Awaiting? && control.copy == was.copy else control == was
    }

    method HappenNext(x: Outside, ghost w: World, ghost before: seq<Action>) returns (ghost acts: seq<Action>)
      requires w.store.versions != [] && State() == Run(w, before) && NoCrash(before)
      modifies this
      ensures State() == Run(w, acts) && NoCrash(acts) && before <= acts && StaysAt(old(control))
    {
      RunExtends(w, before, Environment(x));
      acts := before + [Environment(x)];
      Happen(x);
    }

    /** What happens before a call. */
    method Interfere(xs: seq<Outside>, ghost w: World, ghost before: seq<Action>) returns (ghost acts: seq<Action>)
      requires w.store.versions != [] && State() == Run(w, before) && NoCrash(before)
      modifies this
      ensures State() == Run(w, acts) && NoCrash(acts) && before <= acts && StaysAt(old(control))
      ensures xs == [] ==> State() == old(State())
    {
      acts := before;
      for i := 0 to |xs|
        invariant State() == Run(w, acts) && NoCrash(acts) && before <= acts && StaysAt(old(control))
        invariant i == 0 ==> State() == old(State())
      {
        acts := HappenNext(xs[i], w, acts);
      }
    }

    /** An update of the object from the copy in hand, which says where the run goes on. */
    method UpdateObject(outcome: Outcome)
      requires versions != []
      modifies this
      ensures State() == UpdateStep(old(State()), outcome)
    {
      var last := |versions| - 1;
      match control
      case Adding(at, o) =>
        if outcome != Refused && at == last {
          Put(o.(mine := true));
          control := if outcome == Answered then Probing(at + 1, o.(mine := true)) else Idle;
        } else {
          control := Idle;
        }
      case Marking(at, o, seen) =>
        if outcome != Refused && at == last {
          Put(o.(projectExists := seen));
        }
        control := Idle;
      case Removing(at, o) =>
        if outcome != Refused && at == last {
          Put(o.(mine := false));
        }
        control := Idle;
      case _ =>
    }

    /** `Reconcile` up to the shipyard: without a crash it gets to the end of its protocol. */
    method Reconcile(at: nat, env: Env) returns (ghost acts: seq<Action>)
      requires control == Idle && shown <= at < |versions|
      modifies this
      ensures State() == Run(old(State()), acts) && control == Idle
      ensures acts != [] && acts[0] == Controller(Read(at)) && NoCrash(acts)
      ensures Calm(env) && old(versions)[at].Some? ==>
        State() == if old(versions)[at].value.deleting then Removed(old(State()), at, env.accepted)
                   else Kept(old(State()), at, env.seen, env.accepted)
    {
      ghost var w := State();
      acts := ReadObject(at);
      if control.Deleting? {
        acts := Finalize(env, w, acts);
      } else {
        acts := KeepProject(env, w, acts);
      }
    }

    method ReadObject(at: nat) returns (ghost acts: seq<Action>)
      requires control == Idle && shown <= at < |versions|
      modifies this
      ensures acts == [Controller(Read(at))] && NoCrash(acts) && State() == Run(old(State()), acts)
      ensures State() == Step(old(State()), Read(at)) && control == AfterRead(at, old(versions)[at])
    {
      acts := [Controller(Read(at))];
      RunExtends(State(), [], Controller(Read(at)));
      assert [] + [Controller(Read(at))] == acts;
      shown := at;
      control := AfterRead(at, versions[at]);
    }

    /** The finalizer and the project of an object that is not being deleted. */
    method KeepProject(env: Env, ghost w: World, ghost before: seq<Action>) returns (ghost acts: seq<Action>)
      requires w.store.versions != [] && State() == Run(w, before) && NoCrash(before)
      requires control == Idle || control.Adding? || control.Probing?
      modifies this
      ensures State() == Run(w, acts) && NoCrash(acts) && before <= acts && control == Idle
      ensures Calm(env) ==> State() == KeptFrom(old(State()), env.seen, env.accepted)
    {
      acts := before;
      if control.Adding? {
        acts := AddFinalizer(env, w, acts);
      }
      if control.Probing? {
        acts := EnsureProject(env, w, acts);
      }
    }

    method AddFinalizer(env: Env, ghost w: World, ghost before: seq<Action>) returns (ghost acts: seq<Action>)
      requires w.store.versions != [] && State() == Run(w, before) && NoCrash(before) && control.Adding?
      modifies this
      ensures State() == Run(w, acts) && NoCrash(acts) && before <= acts && (control == Idle || control.Probing?)
      ensures Calm(env) ==> State() == Step(old(State()), Update(Answered))
    {
      acts := Interfere(env.gaps.0, w, before);
      RunExtends(w, acts, Controller(Update(env.add)));
      acts := acts + [Controller(Update(env.add))];
      UpdateObject(env.add);
    }

    /** The branch for an object that is being deleted. */
    method Finalize(env: Env, ghost w: World, ghost before: seq<Action>) returns (ghost acts: seq<Action>)
      requires w.store.versions != [] && State() == Run(w, before) && NoCrash(before) && control.Deleting?
      modifies this
      ensures Calm(env) ==> State() == Step(Step(old(State()), SendDelete(true, env.accepted)), Update(Answered))
      ensures State() == Run(w, acts) && NoCrash(acts) && before <= acts && control == Idle
    {
      acts := Interfere(env.gaps.0, w, before);
      RunExtends(w, acts, Controller(SendDelete(env.arrives, env.accepted)));
      acts := acts + [Controller(SendDelete(env.arrives, env.accepted))];
      DeleteProject(env.arrives, env.accepted);
      if control.Removing? {
        acts := RemoveFinalizer(env, w, acts);
      }
    }

    /** `deleteKeptnProject`. */
    method DeleteProject(arrives: bool, accepted: bool)
      requires control.Deleting?
      modifies this`control, this`project, this`deletes, this`log
      ensures State() == DeleteStep(old(State()), arrives, accepted)
    {
      if accepted {
        project, log := false, log + [Disappeared];
      }
      if !arrives {
        if !accepted {
          deletes := deletes + 1;
        }
        control := Idle;
        return;
      }
      log := log + [DeleteAnswered(control.copy.uid, accepted)];
      control := Removing(control.at, control.copy);
    }

    method RemoveFinalizer(env: Env, ghost w: World, ghost before: seq<Action>) returns (ghost acts: seq<Action>)
      requires w.store.versions != [] && State() == Run(w, before) && NoCrash(before) && control.Removing?
      modifies this
      ensures Calm(env) ==> State() == Step(old(State()), Update(Answered))
      ensures State() == Run(w, acts) && NoCrash(acts) && before <= acts && control == Idle
    {
      acts := Interfere(env.gaps.1, w, before);
      RunExtends(w, acts, Controller(Update(env.remove)));
      acts := acts + [Controller(Update(env.remove))];
      UpdateObject(env.remove);
    }

    /** The existence check and what follows from it. */
    method EnsureProject(env: Env, ghost w: World, ghost before: seq<Action>) returns (ghost acts: seq<Action>)
      requires w.store.versions != [] && State() == Run(w, before) && NoCrash(before) && control.Probing?
      modifies this
      ensures Calm(env) ==>
        State() == Step(Step(Step(Step(old(State()), Probe(env.seen)), Update(Answered)), SendCreate),
                        AnswerCreate(env.accepted))
      ensures State() == Run(w, acts) && NoCrash(acts) && before <= acts && control == Idle
    {
      acts := Interfere(env.gaps.1, w, before);
      RunExtends(w, acts, Controller(Probe(env.seen)));
      acts := acts + [Controller(Probe(env.seen))];
      control := AfterProbe(control.at, control.copy, env.seen);
      if control.Marking? {
        acts := MarkProject(env, w, acts);
      } else if control.Creating? {
        acts := CreateProject(env, w, acts);
      }
    }

    method MarkProject(env: Env, ghost w: World, ghost before: seq<Action>) returns (ghost acts: seq<Action>)
      requires w.store.versions != [] && State() == Run(w, before) && NoCrash(before) && control.Marking?
      modifies this
      ensures Calm(env) ==> State() == Step(old(State()), Update(Answered))
      ensures State() == Run(w, acts) && NoCrash(acts) && before <= acts && control == Idle
    {
      acts := Interfere(env.gaps.2, w, before);
      RunExtends(w, acts, Controller(Update(env.mark)));
      acts := acts + [Controller(Update(env.mark))];
      UpdateObject(env.mark);
    }

    /** `createProject`: without the secret nothing is sent; else the request is sent, and answered or given up. */
    method CreateProject(env: Env, ghost w: World, ghost before: seq<Action>) returns (ghost acts: seq<Action>)
      requires w.store.versions != [] && State() == Run(w, before) && NoCrash(before) && control.Creating?
      modifies this
      ensures Calm(env) ==> State() == Step(Step(old(State()), SendCreate), AnswerCreate(env.accepted))
      ensures !env.decrypts ==> State() == old(State()).(control := Idle)
      ensures State() == Run(w, acts) && NoCrash(acts) && before <= acts && control == Idle
    {
      if !env.decrypts {
        RunExtends(w, before, Controller(GiveUp));
        acts := before + [Controller(GiveUp)];
        control := Idle;
        return;
      }
      RunExtends(w, before, Controller(SendCreate));
      acts := before + [Controller(SendCreate)];
      log := log + [CreateSent(control.copy.uid)];
      control := Awaiting(control.at, control.copy, false);
      acts := Interfere(env.gaps.2, w, acts);
      RunExtends(w, acts, Controller(AnswerCreate(env.accepted)));
      acts := acts + [Controller(AnswerCreate(env.accepted))];
      EndCreate(env.accepted);
    }

    method EndCreate(accepted: bool)
      requires control.Awaiting?
      modifies this`control, this`project, this`pending, this`log
      ensures State() == AnswerStep(old(State()), accepted)
    {
      if !control.done {
        if accepted {
          project, log := true, log + [Appeared];
        } else {
          pending := pending + 1;
        }
      }
      log := log + [CreateAnswered(control.copy.uid, accepted)];
      control := Idle;
    }
  }
}
