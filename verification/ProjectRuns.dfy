/**
 Whole runs of the project controller: what the log of its calls shows when an object has gone, and when Keptn is left
 with a project that no stored object answers for
 (keptn-operator/controllers/keptnprojectcontroller/keptnproject_controller.go:71-157 and 204-271).
 */
module ProjectRuns {
  import opened Wrappers
  import opened ProjectFinalizer

  // ---------- What the log shows ----------

  /** The create sent at `i` was answered, or cut off by a crash, at `m`. */
  predicate Ends(log: seq<Event>, i: nat, m: nat)
    requires i < |log| && log[i].CreateSent?
  {
    i < m < |log| && (log[m].Crashed? || (log[m].CreateAnswered? && log[m].uid == log[i].uid))
  }

  predicate DeleteAt(log: seq<Event>, uid: nat, j: nat) {
    j < |log| && log[j].DeleteAnswered? && log[j].uid == uid
  }

  /** After the create sent at `i` was over, and before `end`, Keptn was asked to delete the project. */
  ghost predicate Undone(log: seq<Event>, i: nat, end: nat)
    requires i < |log| && log[i].CreateSent?
  {
    exists m: nat, j: nat :: Ends(log, i, m) && m < j < end && DeleteAt(log, log[i].uid, j)
  }

  ghost predicate AllUndone(log: seq<Event>, uid: nat, end: nat) {
    forall i :: 0 <= i < end && i < |log| && log[i] == CreateSent(uid) ==> Undone(log, i, end)
  }

  ghost predicate Over(log: seq<Event>, i: nat)
    requires i < |log| && log[i].CreateSent?
  {
    exists m: nat :: Ends(log, i, m)
  }

  /** Creates carry used uids and are over, but for the awaited one; what vanished had its creates undone. */
  ghost predicate Sound(log: seq<Event>, nextUid: nat, awaited: Option<nat>) {
    && (forall i :: 0 <= i < |log| && log[i].CreateSent? ==> log[i].uid < nextUid)
    && (forall i :: 0 <= i < |log| && log[i].CreateSent? ==> Over(log, i) || awaited == Some(log[i].uid))
    && (forall k :: 0 <= k < |log| && log[k].Vanished? ==> log[k].uid < nextUid && AllUndone(log, log[k].uid, k))
  }

  function Awaited(c: Control): Option<nat> {
    if c.Awaiting? then Some(c.copy.uid) else None
  }

  /** An object without the finalizer, or about to lose it, has its creates undone; what vanished does not come back. */
  ghost predicate Exposed(s: Store, control: Control, log: seq<Event>)
    requires s.versions != []
  {
    && (Last(s).Some? && !Last(s).value.mine ==> AllUndone(log, Last(s).value.uid, |log|))
    && (control.Removing? ==> AllUndone(log, control.copy.uid, |log|))
    && (forall k :: 0 <= k < |log| && log[k].Vanished? ==> !Same(Last(s), log[k].uid))
  }

  ghost predicate Accounted(w: World)
    requires w.store.versions != []
  {
    Sound(w.log, w.store.nextUid, Awaited(w.control)) && Exposed(w.store, w.control, w.log)
  }

  // ---------- Growing logs ----------

  lemma EndsGrows(log: seq<Event>, e: Event, i: nat, m: nat)
    requires i < |log| && log[i].CreateSent? && Ends(log, i, m)
    ensures Ends(log + [e], i, m)
  {}

  lemma UndoneGrows(log: seq<Event>, e: Event, i: nat, end: nat, end': nat)
    requires i < |log| && log[i].CreateSent? && Undone(log, i, end) && end <= end'
    ensures Undone(log + [e], i, end')
  {
    var m: nat, j: nat :| Ends(log, i, m) && m < j < end && DeleteAt(log, log[i].uid, j);
    EndsGrows(log, e, i, m);
    assert (log + [e])[i] == log[i];
    assert DeleteAt(log + [e], log[i].uid, j);
  }

  lemma AllUndoneGrows(log: seq<Event>, e: Event, uid: nat, end: nat)
    requires AllUndone(log, uid, end) && end <= |log|
    ensures AllUndone(log + [e], uid, end)
    ensures end == |log| && e != CreateSent(uid) ==> AllUndone(log + [e], uid, end + 1)
  {
    forall i | 0 <= i < end && log[i] == CreateSent(uid)
      ensures Undone(log + [e], i, end) && Undone(log + [e], i, end + 1)
    {
      UndoneGrows(log, e, i, end, end);
      UndoneGrows(log, e, i, end, end + 1);
    }
  }

  lemma OverGrows(log: seq<Event>, e: Event, i: nat)
    requires i < |log| && log[i].CreateSent?
    ensures Over(log, i) ==> Over(log + [e], i)
    ensures e.Crashed? || (e.CreateAnswered? && e.uid == log[i].uid) ==> Over(log + [e], i)
  {
    if Over(log, i) {
      var m: nat :| Ends(log, i, m);
      EndsGrows(log, e, i, m);
    }
    if e.Crashed? || (e.CreateAnswered? && e.uid == log[i].uid) {
      assert Ends(log + [e], i, |log|);
    }
  }

  /** Every create is over, and then the project is deleted. */
  lemma DeleteUndoes(log: seq<Event>, nextUid: nat, uid: nat, accepted: bool)
    requires Sound(log, nextUid, None)
    ensures AllUndone(log + [DeleteAnswered(uid, accepted)], uid, |log| + 1)
  {
    var log' := log + [DeleteAnswered(uid, accepted)];
    forall i | 0 <= i < |log'| && log'[i] == CreateSent(uid) ensures Undone(log', i, |log| + 1) {
      assert log'[i] == log[i] && Over(log, i);
      var m: nat :| Ends(log, i, m);
      EndsGrows(log, DeleteAnswered(uid, accepted), i, m);
      assert DeleteAt(log', uid, |log|);
    }
  }

  /** What may come next in the log while `awaited` is awaited, and what is awaited then. */
  predicate Fits(nextUid: nat, awaited: Option<nat>, e: Event, awaited': Option<nat>) {
    match e
    case CreateSent(uid) => awaited == None && awaited' == Some(uid) && uid < nextUid
    case CreateAnswered(uid, _) => awaited == Some(uid) && awaited' == None
    case Crashed => awaited' == None
    case Vanished(_) => false
    case _ => awaited' == awaited
  }

  lemma SoundGrows(log: seq<Event>, nextUid: nat, awaited: Option<nat>, e: Event, awaited': Option<nat>)
    requires Sound(log, nextUid, awaited) && Fits(nextUid, awaited, e, awaited')
    ensures Sound(log + [e], nextUid, awaited')
  {
    var log' := log + [e];
    forall i | 0 <= i < |log'| && log'[i].CreateSent? ensures Over(log', i) || awaited' == Some(log'[i].uid) {
      if i < |log| {
        assert log'[i] == log[i];
        OverGrows(log, e, i);
      }
    }
    forall k | 0 <= k < |log'| && log'[k].Vanished?
      ensures log'[k].uid < nextUid && AllUndone(log', log'[k].uid, k)
    {
      assert log'[k] == log[k];
      AllUndoneGrows(log, e, log[k].uid, k);
    }
  }

  lemma ExposedGrows(s: Store, control: Control, log: seq<Event>, e: Event, control': Control)
    requires s.versions != [] && Exposed(s, control, log) && !e.Vanished?
    requires e.CreateSent? && Same(Last(s), e.uid) ==> Last(s).value.mine
    requires control'.Removing? ==> AllUndone(log + [e], control'.copy.uid, |log| + 1)
    ensures Exposed(s, control', log + [e])
  {
    if Last(s).Some? && !Last(s).value.mine { AllUndoneGrows(log, e, Last(s).value.uid, |log|); }
    forall k | 0 <= k < |log + [e]| && (log + [e])[k].Vanished? ensures !Same(Last(s), (log + [e])[k].uid) {
      assert (log + [e])[k] == log[k];
    }
  }

  /** An event with a move of the controller that leaves the store alone. */
  lemma LogKeeps(w: World, control: Control, e: Event)
    requires w.store.versions != [] && Accounted(w)
    requires Fits(w.store.nextUid, Awaited(w.control), e, Awaited(control))
    requires e.CreateSent? && Same(Last(w.store), e.uid) ==> Last(w.store).value.mine
    requires control.Removing? ==> AllUndone(w.log + [e], control.copy.uid, |w.log| + 1)
    ensures Accounted(w.(control := control, log := w.log + [e]))
  {
    SoundGrows(w.log, w.store.nextUid, Awaited(w.control), e, Awaited(control));
    ExposedGrows(w.store, w.control, w.log, e, control);
  }

  lemma VanishSound(log: seq<Event>, nextUid: nat, awaited: Option<nat>, uid: nat)
    requires Sound(log, nextUid, awaited) && uid < nextUid && AllUndone(log, uid, |log|)
    ensures Sound(log + [Vanished(uid)], nextUid, awaited)
  {
    var e := Vanished(uid);
    var log' := log + [e];
    forall i | 0 <= i < |log'| && log'[i].CreateSent? ensures Over(log', i) || awaited == Some(log'[i].uid) {
      assert log'[i] == log[i];
      OverGrows(log, e, i);
    }
    forall k | 0 <= k < |log'| && log'[k].Vanished?
      ensures log'[k].uid < nextUid && AllUndone(log', log'[k].uid, k)
    {
      if k < |log| { assert log'[k] == log[k]; }
      AllUndoneGrows(log, e, log'[k].uid, k);
    }
  }

  /** Storing a version, when an object without the finalizer has its creates undone. */
  lemma WriteAccounted(w: World, o: Object, control: Control)
    requires w.store.versions != [] && Accounted(w) && o.uid < w.store.nextUid
    requires forall k :: 0 <= k < |w.log| && w.log[k].Vanished? ==> w.log[k].uid != o.uid
    requires Awaited(control) == Awaited(w.control) && (control.Removing? ==> control == w.control)
    requires !o.mine ==> AllUndone(w.log, o.uid, |w.log|)
    ensures Accounted(Write(w, o, control))
  {
    if Vanishes(o) {
      VanishSound(w.log, w.store.nextUid, Awaited(w.control), o.uid);
      if control.Removing? { AllUndoneGrows(w.log, Vanished(o.uid), control.copy.uid, |w.log|); }
    } else {
      assert w.log + [] == w.log;
    }
  }

  /** A new version of the stored object. */
  lemma VersionAccounted(w: World, o: Object, control: Control)
    requires Stored(w) && Accounted(w) && Same(Last(w.store), o.uid)
    requires Awaited(control) == Awaited(w.control) && (control.Removing? ==> control == w.control)
    requires !o.mine ==> !Last(w.store).value.mine || AllUndone(w.log, o.uid, |w.log|)
    ensures Accounted(Write(w, o, control))
  {
    WriteAccounted(w, o, control);
  }

  lemma CreateAccounted(w: World, mine: bool, others: bool)
    requires Stored(w) && Accounted(w) && Last(w.store) == None
    ensures Accounted(OutsideAct(w, Create(mine, others)))
  {
    var uid := w.store.nextUid;
    WriteAccounted(w.(store := w.store.(nextUid := uid + 1)), Object(uid, false, mine, others, false), w.control);
  }

  lemma OutsideAccounted(w: World, x: Outside)
    requires Stored(w) && Accounted(w)
    ensures Accounted(OutsideAct(w, x))
  {
    var last := Last(w.store);
    match x
    case Create(mine, others) => if last == None { CreateAccounted(w, mine, others); }
    case Delete =>
      if last.Some? && !last.value.deleting { VersionAccounted(w, last.value.(deleting := true), w.control); }
    case Edit(others, exists') =>
      if last.Some? { VersionAccounted(w, last.value.(others := others, projectExists := exists'), w.control); }
    case TakeCurrent =>
      if w.control.Awaiting? { LogKeeps(w, w.control.(done := true), Appeared); }
    case TakeLate =>
      if w.control.Removing? { AllUndoneGrows(w.log, Appeared, w.control.copy.uid, |w.log|); }
      LogKeeps(w, w.control, Appeared);
    case DeleteLate =>
      if w.control.Removing? { AllUndoneGrows(w.log, Disappeared, w.control.copy.uid, |w.log|); }
      LogKeeps(w, w.control, Disappeared);
  }

  lemma UpdateAccounted(w: World, outcome: Outcome)
    requires Stored(w) && Accounted(w)
    ensures Accounted(UpdateStep(w, outcome))
  {
    match w.control
    case Adding(at, o) =>
      if Written(w.store, at, outcome) {
        VersionAccounted(w, o.(mine := true), if outcome == Answered then Probing(at + 1, o.(mine := true)) else Idle);
      }
    case Marking(at, o, seen) =>
      if Written(w.store, at, outcome) { VersionAccounted(w, o.(projectExists := seen), Idle); }
    case Removing(at, o) =>
      if Written(w.store, at, outcome) { VersionAccounted(w, o.(mine := false), Idle); }
    case _ =>
  }

  lemma SendAccounted(w: World, at: nat, o: Object)
    requires Stored(w) && Accounted(w) && w.control == Creating(at, o)
    ensures Accounted(Step(w, SendCreate))
  {
    assert Live(w.store.versions[at]);
    LogKeeps(w, Awaiting(at, o, false), CreateSent(o.uid));
  }

  lemma AnswerAccounted(w: World, at: nat, o: Object, done: bool, accepted: bool)
    requires Stored(w) && Accounted(w) && w.control == Awaiting(at, o, done)
    ensures Accounted(AnswerStep(w, accepted))
  {
    var answer := CreateAnswered(o.uid, accepted);
    if !done && accepted {
      LogKeeps(w, w.control, Appeared);
      LogKeeps(w.(log := w.log + [Appeared]), Idle, answer);
    } else {
      LogKeeps(w, Idle, answer);
    }
  }

  lemma DeleteAccounted(w: World, at: nat, o: Object, arrives: bool, accepted: bool)
    requires Stored(w) && Accounted(w) && w.control == Deleting(at, o)
    ensures Accounted(DeleteStep(w, arrives, accepted))
  {
    var r := w;
    if accepted {
      LogKeeps(w, w.control, Disappeared);
      r := w.(log := w.log + [Disappeared]);
    }
    if arrives {
      DeleteUndoes(r.log, w.store.nextUid, o.uid, accepted);
      LogKeeps(r, Removing(at, o), DeleteAnswered(o.uid, accepted));
    }
  }

  lemma StepAccounted(w: World, c: Call)
    requires Stored(w) && Accounted(w)
    ensures Accounted(Step(w, c))
  {
    match c
    case Update(outcome) => UpdateAccounted(w, outcome);
    case SendCreate => if w.control.Creating? { SendAccounted(w, w.control.at, w.control.copy); }
    case AnswerCreate(accepted) =>
      if w.control.Awaiting? { AnswerAccounted(w, w.control.at, w.control.copy, w.control.done, accepted); }
    case SendDelete(arrives, accepted) =>
      if w.control.Deleting? { DeleteAccounted(w, w.control.at, w.control.copy, arrives, accepted); }
    case Crash => LogKeeps(w, Idle, Crashed);
    case _ =>
  }

  /** Every reachable state keeps both invariants, whatever users, Keptn, the cache, the calls and crashes do. */
  lemma {:induction false} RunKeeps(acts: seq<Action>)
    ensures Stored(Run(START, acts)) && Accounted(Run(START, acts))
    decreases |acts|
  {
    if acts != [] {
      RunKeeps(acts[..|acts| - 1]);
      var w := Run(START, acts[..|acts| - 1]);
      match acts[|acts| - 1]
      case Environment(x) =>
        OutsideKeepsStored(w, x);
        OutsideAccounted(w, x);
      case Controller(c) =>
        StepKeepsStored(w, c);
        StepAccounted(w, c);
    }
  }

  /**
   The controller only creates a Keptn project for a stored object that holds its finalizer, and the object holds it
   until the create is answered.
   */
  lemma CreatesOnlyForHeld(acts: seq<Action>)
    ensures var w := Run(START, acts);
      w.control.Creating? || w.control.Awaiting? ==>
      Same(Last(w.store), w.control.copy.uid) && Last(w.store).value.mine
  {
    RunKeeps(acts);
    var w := Run(START, acts);
    if w.control.Creating? || w.control.Awaiting? { assert Live(w.store.versions[w.control.at]); }
  }

  /**
   In every run, an object that went away had every create for it answered, or cut off by a crash, and Keptn asked after
   that to delete the project.
   */
  lemma VanishesOnlyAfterDelete(acts: seq<Action>, i: nat, k: nat) returns (m: nat, j: nat)
    requires i < k < |Run(START, acts).log| && Run(START, acts).log[k].Vanished?
    requires Run(START, acts).log[i] == CreateSent(Run(START, acts).log[k].uid)
    ensures var log := Run(START, acts).log;
      i < m < j < k && Ends(log, i, m) && DeleteAt(log, log[k].uid, j)
  {
    RunKeeps(acts);
    var log := Run(START, acts).log;
    assert Undone(log, i, k);
    m, j :| Ends(log, i, m) && m < j < k && DeleteAt(log, log[i].uid, j);
  }

  /** And nothing is created for an object that has gone. */
  lemma NoCreateAfterVanishing(acts: seq<Action>)
    ensures var w := Run(START, acts);
      w.control.Creating? ==> forall k :: 0 <= k < |w.log| && w.log[k].Vanished? ==> w.log[k].uid != w.control.copy.uid
  {
    RunKeeps(acts);
    CreatesOnlyForHeld(acts);
  }

  // ---------- What Keptn is left with ----------

  predicate Answer(e: Event) {
    e.CreateAnswered? || e.DeleteAnswered?
  }

  /** The last answer from Keptn. */
  function LastAnswer(log: seq<Event>): Option<Event>
    decreases |log|
  {
    if log == [] then None
    else
      var e := log[|log| - 1];
      if Answer(e) then Some(e) else LastAnswer(log[..|log| - 1])
  }

  /** Keptn has the project: after the last create that took effect, no delete did. */
  predicate Present(log: seq<Event>)
    decreases |log|
  {
    log != [] && (log[|log| - 1].Appeared? || (!log[|log| - 1].Disappeared? && Present(log[..|log| - 1])))
  }

  /** A create took effect after the last answer, and no delete did after it. */
  predicate LateCreate(log: seq<Event>)
    decreases |log|
  {
    log != [] &&
    var e := log[|log| - 1];
    e.Appeared? || (!Answer(e) && !e.Disappeared? && LateCreate(log[..|log| - 1]))
  }

  /** The last answer was a refusal to delete the project that Keptn had, and no delete has taken effect since. */
  predicate RefusedDelete(log: seq<Event>)
    decreases |log|
  {
    log != [] &&
    var e, front := log[|log| - 1], log[..|log| - 1];
    (e.DeleteAnswered? && !e.accepted && Present(front)) || (!Answer(e) && !e.Disappeared? && RefusedDelete(front))
  }

  predicate Holder(s: Store)
    requires s.versions != []
  {
    Last(s).Some? && Last(s).value.mine
  }

  predicate AnsweredDelete(log: seq<Event>) {
    LastAnswer(log) == None || LastAnswer(log).value.DeleteAnswered?
  }

  /** Without a holder, and before the finalizer comes off, the last answer was to a delete. */
  predicate Closed(w: World)
    requires w.store.versions != []
  {
    !Holder(w.store) || w.control.Removing? ==> AnsweredDelete(w.log)
  }

  /** The log tells whether Keptn has a project, and why it has one when the last answer was to a delete. */
  predicate Explained(w: World) {
    && (w.keptn.project <==> Present(w.log))
    && (AnsweredDelete(w.log) ==> (w.keptn.project <==> RefusedDelete(w.log) || LateCreate(w.log)))
  }

  lemma AnswerGrows(log: seq<Event>, e: Event)
    ensures LastAnswer(log + [e]) == if Answer(e) then Some(e) else LastAnswer(log)
    ensures Present(log + [e]) <==> e.Appeared? || (!e.Disappeared? && Present(log))
    ensures LateCreate(log + [e]) <==> e.Appeared? || (!Answer(e) && !e.Disappeared? && LateCreate(log))
    ensures RefusedDelete(log + [e]) <==>
      (e.DeleteAnswered? && !e.accepted && Present(log)) || (!Answer(e) && !e.Disappeared? && RefusedDelete(log))
  {
    assert (log + [e])[..|log|] == log;
  }

  lemma WriteClosed(w: World, o: Object, control: Control)
    requires w.store.versions != [] && Closed(w) && Explained(w)
    requires !o.mine || control.Removing? ==> AnsweredDelete(w.log)
    ensures Closed(Write(w, o, control)) && Explained(Write(w, o, control))
  {
    if Vanishes(o) { AnswerGrows(w.log, Vanished(o.uid)); } else { assert w.log + [] == w.log; }
  }

  lemma OutsideClosed(w: World, x: Outside)
    requires Stored(w) && Closed(w) && Explained(w)
    ensures Closed(OutsideAct(w, x)) && Explained(OutsideAct(w, x))
  {
    var last := Last(w.store);
    match x
    case Create(mine, others) =>
      if last == None {
        WriteClosed(w.(store := w.store.(nextUid := w.store.nextUid + 1)),
                    Object(w.store.nextUid, false, mine, others, false), w.control);
      }
    case Delete => if last.Some? { WriteClosed(w, last.value.(deleting := true), w.control); }
    case Edit(others, exists') =>
      if last.Some? { WriteClosed(w, last.value.(others := others, projectExists := exists'), w.control); }
    case DeleteLate => AnswerGrows(w.log, Disappeared);
    case _ => AnswerGrows(w.log, Appeared);
  }

  lemma AddingClosed(w: World, at: nat, o: Object, outcome: Outcome)
    requires Stored(w) && Closed(w) && Explained(w) && w.control == Adding(at, o)
    ensures Closed(UpdateStep(w, outcome)) && Explained(UpdateStep(w, outcome))
  {
    WriteClosed(w, o.(mine := true), if outcome == Answered then Probing(at + 1, o.(mine := true)) else Idle);
  }

  lemma MarkingClosed(w: World, at: nat, o: Object, seen: bool, outcome: Outcome)
    requires Stored(w) && Closed(w) && Explained(w) && w.control == Marking(at, o, seen)
    ensures Closed(UpdateStep(w, outcome)) && Explained(UpdateStep(w, outcome))
  {
    WriteClosed(w, o.(projectExists := seen), Idle);
  }

  lemma RemovingClosed(w: World, at: nat, o: Object, outcome: Outcome)
    requires Stored(w) && Closed(w) && Explained(w) && w.control == Removing(at, o)
    ensures Closed(UpdateStep(w, outcome)) && Explained(UpdateStep(w, outcome))
  {
    WriteClosed(w, o.(mine := false), Idle);
  }

  lemma UpdateClosed(w: World, outcome: Outcome)
    requires Stored(w) && Closed(w) && Explained(w)
    ensures Closed(UpdateStep(w, outcome)) && Explained(UpdateStep(w, outcome))
  {
    match w.control
    case Adding(at, o) => AddingClosed(w, at, o, outcome);
    case Marking(at, o, seen) => MarkingClosed(w, at, o, seen, outcome);
    case Removing(at, o) => RemovingClosed(w, at, o, outcome);
    case _ =>
  }

  /** The last answer is to a create, for an object that still holds the finalizer. */
  lemma CreateAnsweredClosed(w: World, log: seq<Event>, uid: nat, accepted: bool)
    requires w.store.versions != [] && Holder(w.store) && w.control == Idle
    requires w.log == log + [CreateAnswered(uid, accepted)] && (w.keptn.project <==> Present(log))
    ensures Closed(w) && Explained(w)
  {
    AnswerGrows(log, CreateAnswered(uid, accepted));
  }

  lemma AnswerClosed(w: World, accepted: bool)
    requires Stored(w) && Closed(w) && Explained(w) && Accounted(w)
    ensures Closed(AnswerStep(w, accepted)) && Explained(AnswerStep(w, accepted))
  {
    if w.control.Awaiting? {
      assert Live(w.store.versions[w.control.at]);
      if !w.control.done && accepted {
        AnswerGrows(w.log, Appeared);
        CreateAnsweredClosed(AnswerStep(w, true), w.log + [Appeared], w.control.copy.uid, true);
      } else {
        CreateAnsweredClosed(AnswerStep(w, accepted), w.log, w.control.copy.uid, accepted);
      }
    }
  }

  lemma DeleteClosed(w: World, arrives: bool, accepted: bool)
    requires Stored(w) && Closed(w) && Explained(w)
    ensures Closed(DeleteStep(w, arrives, accepted)) && Explained(DeleteStep(w, arrives, accepted))
  {
    if w.control.Deleting? {
      var answer := DeleteAnswered(w.control.copy.uid, accepted);
      AnswerGrows(w.log, Disappeared);
      AnswerGrows(w.log, answer);
      AnswerGrows(w.log + [Disappeared], answer);
    }
  }

  lemma StepClosed(w: World, c: Call)
    requires Stored(w) && Closed(w) && Explained(w) && Accounted(w)
    ensures Closed(Step(w, c)) && Explained(Step(w, c))
  {
    match c
    case Update(outcome) => UpdateClosed(w, outcome);
    case SendCreate => if w.control.Creating? { AnswerGrows(w.log, CreateSent(w.control.copy.uid)); }
    case AnswerCreate(accepted) => AnswerClosed(w, accepted);
    case SendDelete(arrives, accepted) => DeleteClosed(w, arrives, accepted);
    case Crash => AnswerGrows(w.log, Crashed);
    case _ =>
  }

  lemma {:induction false} RunClosed(acts: seq<Action>)
    ensures Closed(Run(START, acts)) && Explained(Run(START, acts))
    decreases |acts|
  {
    if acts != [] {
      var front := acts[..|acts| - 1];
      RunClosed(front);
      RunKeeps(front);
      match acts[|acts| - 1]
      case Environment(x) => OutsideClosed(Run(START, front), x);
      case Controller(c) => StepClosed(Run(START, front), c);
    }
  }

  /**
   When no stored object holds the finalizer, Keptn is left with a project if and only if its last answer was a refusal
   to delete it, or a create took effect after its last answer, and no delete has taken effect since.
   */
  lemma OrphanedExactly(acts: seq<Action>)
    requires !Holder(Run(START, acts).store)
    ensures var w := Run(START, acts); w.keptn.project <==> RefusedDelete(w.log) || LateCreate(w.log)
  {
    RunClosed(acts);
  }

  // ---------- Runs without refusals, failed creates and crashes ----------

  predicate Smooth(log: seq<Event>) {
    forall i :: 0 <= i < |log| ==>
      !log[i].Crashed? && (log[i].CreateAnswered? ==> log[i].accepted) && (log[i].DeleteAnswered? ==> log[i].accepted)
  }

  /** In a smooth run no create is left behind, and one that took effect since the last answer is still awaited. */
  predicate NothingLate(w: World) {
    Smooth(w.log) ==> w.keptn.pending == 0 && (LateCreate(w.log) ==> w.control.Awaiting? && w.control.done)
  }

  lemma SmoothGrows(log: seq<Event>, e: Event)
    ensures Smooth(log + [e]) ==>
      Smooth(log) && !e.Crashed? && (Answer(e) ==> e.accepted)
  {
    var log' := log + [e];
    assert log'[|log|] == e;
    assert forall i :: 0 <= i < |log| ==> log'[i] == log[i];
  }

  lemma NothingLateGrows(w: World, e: Event)
    ensures Smooth(w.log + [e]) ==> Smooth(w.log) && !e.Crashed? && (Answer(e) ==> e.accepted)
    ensures LateCreate(w.log + [e]) <==> e.Appeared? || (!Answer(e) && !e.Disappeared? && LateCreate(w.log))
  {
    SmoothGrows(w.log, e);
    AnswerGrows(w.log, e);
  }

  lemma WriteNothingLate(w: World, o: Object, control: Control)
    requires NothingLate(w) && (w.control.Awaiting? ==> control == w.control)
    ensures NothingLate(Write(w, o, control))
  {
    if Vanishes(o) { NothingLateGrows(w, Vanished(o.uid)); } else { assert w.log + [] == w.log; }
  }

  lemma OutsideNothingLate(w: World, x: Outside)
    requires Stored(w) && NothingLate(w)
    ensures NothingLate(OutsideAct(w, x))
  {
    var last := Last(w.store);
    match x
    case Create(mine, others) =>
      if last == None {
        WriteNothingLate(w.(store := w.store.(nextUid := w.store.nextUid + 1)),
                         Object(w.store.nextUid, false, mine, others, false), w.control);
      }
    case Delete => if last.Some? { WriteNothingLate(w, last.value.(deleting := true), w.control); }
    case Edit(others, exists') =>
      if last.Some? { WriteNothingLate(w, last.value.(others := others, projectExists := exists'), w.control); }
    case DeleteLate => NothingLateGrows(w, Disappeared);
    case _ => NothingLateGrows(w, Appeared);
  }

  lemma UpdateNothingLate(w: World, outcome: Outcome)
    requires NothingLate(w)
    ensures NothingLate(UpdateStep(w, outcome))
  {
    match w.control
    case Adding(at, o) =>
      WriteNothingLate(w, o.(mine := true), if outcome == Answered then Probing(at + 1, o.(mine := true)) else Idle);
    case Marking(at, o, seen) => WriteNothingLate(w, o.(projectExists := seen), Idle);
    case Removing(at, o) => WriteNothingLate(w, o.(mine := false), Idle);
    case _ =>
  }

  lemma AnswerNothingLate(w: World, accepted: bool)
    requires NothingLate(w)
    ensures NothingLate(AnswerStep(w, accepted))
  {
    if w.control.Awaiting? {
      var answer := CreateAnswered(w.control.copy.uid, accepted);
      NothingLateGrows(w, answer);
      NothingLateGrows(w, Appeared);
      NothingLateGrows(w.(log := w.log + [Appeared]), answer);
    }
  }

  lemma StepNothingLate(w: World, c: Call)
    requires NothingLate(w)
    ensures NothingLate(Step(w, c))
  {
    match c
    case Update(outcome) => UpdateNothingLate(w, outcome);
    case SendCreate => if w.control.Creating? { NothingLateGrows(w, CreateSent(w.control.copy.uid)); }
    case AnswerCreate(accepted) => AnswerNothingLate(w, accepted);
    case SendDelete(arrives, accepted) =>
      if w.control.Deleting? {
        var answer := DeleteAnswered(w.control.copy.uid, accepted);
        NothingLateGrows(w, Disappeared);
        NothingLateGrows(w, answer);
        NothingLateGrows(w.(log := w.log + [Disappeared]), answer);
      }
    case Crash => NothingLateGrows(w, Crashed);
    case _ =>
  }

  lemma {:induction false} RunNothingLate(acts: seq<Action>)
    ensures NothingLate(Run(START, acts))
    decreases |acts|
  {
    if acts != [] {
      var front := acts[..|acts| - 1];
      RunNothingLate(front);
      RunKeeps(front);
      match acts[|acts| - 1]
      case Environment(x) => OutsideNothingLate(Run(START, front), x);
      case Controller(c) => StepNothingLate(Run(START, front), c);
    }
  }

  /** Without a refused delete, a create that failed and a crash, Keptn has a project only while an object holds it. */
  lemma SmoothRunsLeaveNothing(acts: seq<Action>)
    requires Smooth(Run(START, acts).log) && Run(START, acts).keptn.project
    ensures Holder(Run(START, acts).store)
  {
    var w := Run(START, acts);
    RunNothingLate(acts);
    RunKeeps(acts);
    RunClosed(acts);
    SmoothAnswer(w.log);
    if w.control.Awaiting? { assert Live(w.store.versions[w.control.at]); }
  }

  lemma {:induction false} SmoothAnswer(log: seq<Event>)
    requires Smooth(log)
    ensures !RefusedDelete(log)
    decreases |log|
  {
    if log != [] {
      var front := log[..|log| - 1];
      assert Smooth(front);
      SmoothAnswer(front);
    }
  }

  // ---------- Both kinds of orphans ----------

  function Steps(w: World, acts: seq<Action>): World
    requires w.store.versions != []
    decreases |acts|
  {
    if acts == [] then w else Steps(Act(w, acts[0]), acts[1..])
  }

  lemma {:induction false} StepsIsRun(w: World, acts: seq<Action>, rest: seq<Action>)
    requires w.store.versions != []
    ensures Run(w, acts + rest) == Steps(Run(w, acts), rest)
    decreases |rest|
  {
    if rest == [] {
      assert acts + rest == acts;
    } else {
      var acts' := acts + [rest[0]];
      assert acts'[..|acts|] == acts && acts' + rest[1..] == acts + rest;
      StepsIsRun(w, acts', rest[1..]);
    }
  }

  const SAMPLE := Object(0, false, true, false, false)

  /** An object is stored and its project is requested; `answered` says how that ends. */
  lemma SampleRequested(answered: bool) returns (acts: seq<Action>)
    ensures Steps(START, acts) ==
            World(Store([None, Some(SAMPLE)], 1, 1), Idle, Keptn(answered, if answered then 0 else 1, 0),
                  [CreateSent(0)] + (if answered then [Appeared] else []) + [CreateAnswered(0, answered)])
  {
    var answer := [Controller(AnswerCreate(answered))];
    var send := [Controller(Probe(false)), Controller(SendCreate)] + answer;
    acts := [Environment(Create(true, false)), Controller(Read(1))] + send;
    assert acts[1..] == [Controller(Read(1))] + send && acts[1..][1..] == send;
    assert send[1..] == [Controller(SendCreate)] + answer && send[1..][1..] == answer;
    var s := Store([None, Some(SAMPLE)], 1, 1);
    assert Act(START, acts[0]) == World(Store([None, Some(SAMPLE)], 0, 1), Idle, Keptn(false, 0, 0), []);
    var w := World(s, Probing(1, SAMPLE), Keptn(false, 0, 0), []);
    assert Steps(START, acts) == Steps(w, send);
    var waiting := World(s, Awaiting(1, SAMPLE, false), Keptn(false, 0, 0), [CreateSent(0)]);
    assert Act(Act(w, send[0]), send[1]) == waiting;
    assert Steps(w, send) == Steps(waiting, answer) == AnswerStep(waiting, answered) by { assert answer[1..] == []; }
    assert [CreateSent(0)] + [] == [CreateSent(0)];
  }

  /** The object is deleted; `accepted` is what Keptn says to that. */
  lemma SampleRemoved(w: World, accepted: bool) returns (acts: seq<Action>)
    requires w.store == Store([None, Some(SAMPLE)], 1, 1) && w.control == Idle
    ensures var keptn := if accepted then w.keptn.(project := false) else w.keptn;
      Steps(w, acts) == World(Store([None, Some(SAMPLE), Some(SAMPLE.(deleting := true)), None], 2, 1), Idle, keptn,
                              w.log + (if accepted then [Disappeared] else []) +
                              [DeleteAnswered(0, accepted), Vanished(0)])
  {
    var d := SAMPLE.(deleting := true);
    var finish := [Controller(SendDelete(true, accepted)), Controller(Update(Answered))];
    acts := [Environment(Delete), Controller(Read(2))] + finish;
    assert acts[1..] == [Controller(Read(2))] + finish && acts[1..][1..] == finish;
    var s := Store([None, Some(SAMPLE), Some(d)], 1, 1);
    assert Act(w, acts[0]) == World(s, Idle, w.keptn, w.log);
    var deleting := World(s.(shown := 2), Deleting(2, d), w.keptn, w.log);
    assert Steps(w, acts) == Steps(deleting, finish);
    var removing := DeleteStep(deleting, true, accepted);
    assert finish[1..] == [Controller(Update(Answered))] && finish[1..][1..] == [];
    assert Steps(deleting, finish) == Steps(removing, finish[1..]);
    assert Steps(removing, finish[1..]) == Steps(UpdateStep(removing, Answered), []);
    var log, answer := w.log + (if accepted then [Disappeared] else []), DeleteAnswered(0, accepted);
    assert log + [answer] + [Vanished(0)] == log + [answer, Vanished(0)];
  }

  /** The status of the answer is not looked at, so a refusal does leave the project behind: here is such a run. */
  lemma RefusalOrphans() returns (acts: seq<Action>)
    ensures var w := Run(START, acts);
      && !Holder(w.store) && w.keptn.project
      && w.log == [CreateSent(0), Appeared, CreateAnswered(0, true), DeleteAnswered(0, false), Vanished(0)]
  {
    var create := SampleRequested(true);
    StepsIsRun(START, [], create);
    assert [] + create == create;
    var remove := SampleRemoved(Run(START, create), false);
    StepsIsRun(START, create, remove);
    acts := create + remove;
  }

  /** So does a create that was given up and takes effect after the accepted delete. */
  lemma LateCreateOrphans() returns (acts: seq<Action>)
    ensures var w := Run(START, acts);
      && !Holder(w.store) && w.keptn.project
      && w.log ==
      [CreateSent(0), CreateAnswered(0, false), Disappeared, DeleteAnswered(0, true), Vanished(0), Appeared]
  {
    var create := SampleRequested(false);
    StepsIsRun(START, [], create);
    assert [] + create == create;
    var remove := SampleRemoved(Run(START, create), true);
    StepsIsRun(START, create, remove);
    var late := [Environment(TakeLate)];
    StepsIsRun(START, create + remove, late);
    acts := create + remove + late;
    LateCreateLands(Run(START, create + remove), late);
  }

  lemma LateCreateLands(w: World, late: seq<Action>)
    requires w.store.versions != [] && w.keptn.pending > 0 && late == [Environment(TakeLate)]
    ensures Steps(w, late) ==
            World(w.store, w.control, w.keptn.(project := true, pending := w.keptn.pending - 1), w.log + [Appeared])
  {
    assert Steps(w, late) == Act(w, late[0]) by { assert late[1..] == []; }
  }
}
