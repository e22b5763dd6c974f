/**
 Runs of the project controller in which every call is answered and nobody else acts: what a run makes of what it sees
 (keptn-operator/controllers/keptnprojectcontroller/keptnproject_controller.go:97-157).
 */
module ProjectCalm {
  import opened Wrappers
  import opened ProjectFinalizer

  /** The calls of a run in their order; those that do not apply change nothing. */
  function Kept(w: World, at: nat, seen: bool, accepted: bool): World {
    KeptFrom(Step(w, Read(at)), seen, accepted)
  }

  function KeptFrom(w: World, seen: bool, accepted: bool): World {
    var added := Step(w, Update(Answered));
    var probed := Step(Step(added, Probe(seen)), Update(Answered));
    Step(Step(probed, SendCreate), AnswerCreate(accepted))
  }

  function Removed(w: World, at: nat, accepted: bool): World {
    Step(Step(Step(w, Read(at)), SendDelete(true, accepted)), Update(Answered))
  }

  /** The latest version of a stored object, and a controller that may read it. */
  predicate Ready(w: World, o: Object) {
    w.control == Idle && w.store.versions != [] && Last(w.store) == Some(o) && w.store.shown < |w.store.versions|
  }

  function Latest(w: World): nat
    requires w.store.versions != []
  {
    |w.store.versions| - 1
  }

  /**
   A run on an object that is not being deleted puts the finalizer on. If Keptn's project is there and the status does
   not say so, or the other way round, the status says afterwards what the run saw.
   */
  lemma RecordsWhatItSees(w: World, o: Object, seen: bool, accepted: bool)
    requires Ready(w, o) && !o.deleting && seen != o.projectExists
    ensures var r := Kept(w, Latest(w), seen, accepted);
      && Ready(r, Object(o.uid, false, true, o.others, seen))
      && r.log == w.log && r.keptn == w.keptn && r.store.nextUid == w.store.nextUid
  {
    var held := AfterFinalizer(w, o);
  }

  /** Up to the existence check. */
  lemma AfterFinalizer(w: World, o: Object) returns (held: Object)
    requires Ready(w, o) && !o.deleting
    ensures held == o.(mine := true)
    ensures var r := Step(Step(w, Read(Latest(w))), Update(Answered));
      && r.store.versions != [] && Last(r.store) == Some(held) && r.control == Probing(Latest(r), held)
      && r.store.shown < |r.store.versions| && r.store.nextUid == w.store.nextUid
      && r.log == w.log && r.keptn == w.keptn
      && (o.mine ==> r.store.versions == w.store.versions)
  {
    held := o.(mine := true);
    assert w.log + [] == w.log;
  }

  /** A project that the status does not claim and that is not there is asked for; the object is left as it is. */
  lemma AsksForMissing(w: World, o: Object, accepted: bool)
    requires Ready(w, o) && !o.deleting && !o.projectExists
    ensures var r := Kept(w, Latest(w), false, accepted);
      && Ready(r, Object(o.uid, false, true, o.others, false))
      && r.log == w.log + [CreateSent(o.uid)] + (if accepted then [Appeared] else []) +
                  [CreateAnswered(o.uid, accepted)]
      && r.keptn == (if accepted then w.keptn.(project := true) else w.keptn.(pending := w.keptn.pending + 1))
  {
    var held := AfterFinalizer(w, o);
    assert w.log + [CreateSent(o.uid)] + [] == w.log + [CreateSent(o.uid)];
  }

  /** A project that is there, and said to be, is left alone. */
  lemma LeavesPresent(w: World, o: Object, accepted: bool)
    requires Ready(w, o) && !o.deleting && o.projectExists
    ensures var r := Kept(w, Latest(w), true, accepted);
      && Ready(r, Object(o.uid, false, true, o.others, true)) && r.log == w.log && r.keptn == w.keptn
      && (o.mine ==> r.store.versions == w.store.versions)
  {
    var held := AfterFinalizer(w, o);
  }

  /** A create for the object was sent after `before`. */
  predicate AsksSince(before: seq<Event>, log: seq<Event>, uid: nat) {
    before <= log && exists i :: |before| <= i < |log| && log[i] == CreateSent(uid)
  }

  /** From any object that is not being deleted, two runs that do not see the project ask for it. */
  lemma TwoRunsAsk(w: World, o: Object, first: bool, second: bool)
    requires Ready(w, o) && !o.deleting
    ensures var u := Kept(w, Latest(w), false, first);
      u.store.versions != [] && AsksSince(w.log, Kept(u, Latest(u), false, second).log, o.uid)
  {
    var u := Kept(w, Latest(w), false, first);
    var held := Object(o.uid, false, true, o.others, false);
    var asked, log := CreateSent(o.uid), Kept(u, Latest(u), false, second).log;
    if o.projectExists {
      RecordsWhatItSees(w, o, false, first);
    } else {
      AsksForMissing(w, o, first);
      assert u.log[|w.log|] == asked;
    }
    AsksForMissing(u, held, second);
    var i := if o.projectExists then |u.log| else |w.log|;
    assert log[i] == asked;
  }

  /** A run on an object under deletion that holds the finalizer asks for the deletion and takes the finalizer off. */
  lemma DeletesAndLetsGo(w: World, o: Object, accepted: bool)
    requires Ready(w, o) && o.deleting && o.mine
    ensures var r := Removed(w, Latest(w), accepted);
      && r.control == Idle
      && r.log == w.log + (if accepted then [Disappeared] else []) + [DeleteAnswered(o.uid, accepted)] +
                  (if o.others then [] else [Vanished(o.uid)])
      && r.store.versions == w.store.versions + [if o.others then Some(o.(mine := false)) else None]
      && r.keptn == (if accepted then w.keptn.(project := false) else w.keptn)
  {
    assert w.log + [] == w.log;
  }

  /** Without the finalizer the object is left alone. */
  lemma LeavesLetGo(w: World, o: Object, accepted: bool)
    requires Ready(w, o) && o.deleting && !o.mine
    ensures Removed(w, Latest(w), accepted) == w.(store := w.store.(shown := Latest(w)))
  {}

  // ---------- Calls that fail ----------

  /** An update that is not answered ends the run; one from a stale copy, or refused, changes nothing. */
  lemma FailedUpdateEnds(w: World, outcome: Outcome)
    requires w.store.versions != [] && (w.control.Adding? || w.control.Marking? || w.control.Removing?)
    ensures var r := Step(w, Update(outcome));
      && (outcome != Answered ==> r.control == Idle) && r.keptn == w.keptn
      && (outcome == Refused || w.control.at != Latest(w) ==> r == w.(control := Idle))
      && (outcome == Lost && w.control.at == Latest(w) ==>
            |r.store.versions| == |w.store.versions| + 1 && r.store == Step(w, Update(Answered)).store)
  {}

  /** A delete without an answer ends the run, and leaves the finalizer and the log of answers alone. */
  lemma UnansweredDeleteEnds(w: World, accepted: bool)
    requires w.control.Deleting?
    ensures var r := Step(w, SendDelete(false, accepted));
      && r.control == Idle && r.store == w.store && r.log == w.log + (if accepted then [Disappeared] else [])
  {
    assert w.log + [] == w.log;
  }

  /** A create that is not accepted ends the run like one that is. */
  lemma CreateEnds(w: World, accepted: bool)
    requires w.control.Awaiting?
    ensures var r := Step(w, AnswerCreate(accepted));
      r.control == Idle && r.store == w.store && r.log != [] &&
      r.log[|r.log| - 1] == CreateAnswered(w.control.copy.uid, accepted)
  {}
}
