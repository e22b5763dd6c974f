/**
 The project controller's finalizer: a Keptn project is created only for a stored object that holds the finalizer, and
 the object does not go away before Keptn has been asked to delete the project again
 (keptn-operator/controllers/keptnprojectcontroller/keptnproject_controller.go:71-157 and 204-271).
 Users act between any two calls of the controller, reads come from a cache that may lag behind, calls may take effect
 without their answer arriving or long after they were given up, and the controller may crash anywhere.
 */
module ProjectFinalizer {
  import opened Wrappers

  /** A stored project object: `mine` is the controller's finalizer, `others` says whether there is any other one. */
  datatype Object = Object(uid: nat, deleting: bool, mine: bool, others: bool, projectExists: bool)

  /**
   All versions of the object under one name (`None` while there is none), the position of the latest version the cache
   has shown, and the next free uid.
   */
  datatype Store = Store(versions: seq<Option<Object>>, shown: nat, nextUid: nat)

  /** `Appeared`: a create took effect in Keptn; `Disappeared`: a delete did. */
  datatype Event =
    | CreateSent(uid: nat)
    | Appeared
    | Disappeared
    | CreateAnswered(uid: nat, accepted: bool)
    | DeleteAnswered(uid: nat, accepted: bool)
    | Crashed
    | Vanished(uid: nat)

  /** What the controller does next; it holds the copy it works on. */
  datatype Control =
    | Idle
    | Adding(at: nat, copy: Object)
    | Probing(at: nat, copy: Object)
    | Marking(at: nat, copy: Object, seen: bool)
    | Creating(at: nat, copy: Object)
    | Awaiting(at: nat, copy: Object, done: bool)
    | Deleting(at: nat, copy: Object)
    | Removing(at: nat, copy: Object)

  /** Whether Keptn has the project, and how many creates and deletes that were given up may still take effect. */
  datatype Keptn = Keptn(project: bool, pending: nat, deletes: nat)

  datatype World = World(store: Store, control: Control, keptn: Keptn, log: seq<Event>)

  function Last(s: Store): Option<Object>
    requires s.versions != []
  {
    s.versions[|s.versions| - 1]
  }

  /** An object under deletion without finalizers goes away. */
  predicate Vanishes(o: Object) {
    o.deleting && !o.mine && !o.others
  }

  function Put(s: Store, o: Object): Store {
    s.(versions := s.versions + [if Vanishes(o) then None else Some(o)])
  }

  function Write(w: World, o: Object, control: Control): World {
    World(Put(w.store, o), control, w.keptn, w.log + if Vanishes(o) then [Vanished(o.uid)] else [])
  }

  // ---------- What users and Keptn do ----------

  datatype Outside =
    | Create(mine: bool, others: bool)
    | Delete
    | Edit(others: bool, projectExists: bool)
    | TakeCurrent
    | TakeLate
    | DeleteLate

  /**
   Users may do anything but take the finalizer off; a create takes effect while it is awaited, or late, and so does a
   delete that was given up.
   */
  function OutsideAct(w: World, x: Outside): World
    requires w.store.versions != []
  {
    match x
    case Create(mine, others) =>
      if Last(w.store).Some? then w
      else
        var uid := w.store.nextUid;
        Write(w.(store := w.store.(nextUid := uid + 1)), Object(uid, false, mine, others, false), w.control)
    case Delete =>
      if Last(w.store) == None || Last(w.store).value.deleting then w
      else Write(w, Last(w.store).value.(deleting := true), w.control)
    case Edit(others, exists') =>
      if Last(w.store) == None then w
      else Write(w, Last(w.store).value.(others := others, projectExists := exists'), w.control)
    case TakeCurrent =>
      if w.control.Awaiting? && !w.control.done
      then World(w.store, w.control.(done := true), w.keptn.(project := true), w.log + [Appeared])
      else w
    case TakeLate =>
      if w.keptn.pending > 0
      then World(w.store, w.control, w.keptn.(project := true, pending := w.keptn.pending - 1), w.log + [Appeared])
      else w
    case DeleteLate =>
      if w.keptn.deletes > 0
      then World(w.store, w.control, w.keptn.(project := false, deletes := w.keptn.deletes - 1), w.log + [Disappeared])
      else w
  }

  // ---------- What the controller does, call by call ----------

  /** A call is refused, takes effect without its answer arriving, or is answered. */
  datatype Outcome = Refused | Lost | Answered

  /**
   In `SendDelete` Keptn deletes the project if it accepts, whether or not its answer arrives; without an answer it may
   also do so later. `GiveUp`: the create is not sent, because the secret cannot be decrypted.
   */
  datatype Call =
    | Read(at: nat)
    | Update(outcome: Outcome)
    | Probe(seen: bool)
    | SendCreate
    | GiveUp
    | AnswerCreate(accepted: bool)
    | SendDelete(arrives: bool, accepted: bool)
    | Crash

  /** An update is refused unless the copy is the stored version. */
  predicate Written(s: Store, at: nat, outcome: Outcome) {
    outcome != Refused && at == |s.versions| - 1
  }

  function AfterRead(at: nat, v: Option<Object>): Control {
    if v == None then Idle
    else
      var o := v.value;
      if !o.deleting then (if o.mine then Probing(at, o) else Adding(at, o))
      else if o.mine then Deleting(at, o)
      else Idle
  }

  function AfterProbe(at: nat, o: Object, seen: bool): Control {
    if seen != o.projectExists then Marking(at, o, seen)
    else if !seen then Creating(at, o)
    else Idle  // the shipyard part, which leaves this object alone
  }

  function ReadStep(w: World, at: nat): World {
    if w.control == Idle && w.store.shown <= at < |w.store.versions| then
      w.(store := w.store.(shown := at), control := AfterRead(at, w.store.versions[at]))
    else w
  }

  function UpdateStep(w: World, outcome: Outcome): World {
    match w.control
    case Adding(at, o) =>
      if !Written(w.store, at, outcome) then w.(control := Idle)
      else Write(w, o.(mine := true), if outcome == Answered then Probing(at + 1, o.(mine := true)) else Idle)
    case Marking(at, o, seen) =>
      if !Written(w.store, at, outcome) then w.(control := Idle) else Write(w, o.(projectExists := seen), Idle)
    case Removing(at, o) =>
      if !Written(w.store, at, outcome) then w.(control := Idle) else Write(w, o.(mine := false), Idle)
    case _ => w
  }

  /** A create that was accepted has taken effect; one that was not may still do so. */
  function AnswerStep(w: World, accepted: bool): World {
    if !w.control.Awaiting? then w
    else
      var answer := [CreateAnswered(w.control.copy.uid, accepted)];
      if w.control.done then w.(control := Idle, log := w.log + answer)
      else if accepted then World(w.store, Idle, w.keptn.(project := true), w.log + [Appeared] + answer)
      else World(w.store, Idle, w.keptn.(pending := w.keptn.pending + 1), w.log + answer)
  }

  /** Any answer counts as success; only a request that brings none is an error. */
  function DeleteStep(w: World, arrives: bool, accepted: bool): World {
    if !w.control.Deleting? then w
    else
      var r := if accepted then w.(keptn := w.keptn.(project := false), log := w.log + [Disappeared]) else w;
      if !arrives then
        r.(control := Idle, keptn := r.keptn.(deletes := r.keptn.deletes + if accepted then 0 else 1))
      else
        r.(control := Removing(w.control.at, w.control.copy),
           log := r.log + [DeleteAnswered(w.control.copy.uid, accepted)])
  }

  function CrashStep(w: World): World {
    var late := if w.control.Awaiting? && !w.control.done then 1 else 0;
    World(w.store, Idle, w.keptn.(pending := w.keptn.pending + late), w.log + [Crashed])
  }

  function Step(w: World, c: Call): World {
    match c
    case Read(at) => ReadStep(w, at)
    case Update(outcome) => UpdateStep(w, outcome)
    case Probe(seen) =>
      if w.control.Probing? then w.(control := AfterProbe(w.control.at, w.control.copy, seen)) else w
    case SendCreate =>
      if w.control.Creating?
      then w.(control := Awaiting(w.control.at, w.control.copy, false), log := w.log + [CreateSent(w.control.copy.uid)])
      else w
    case GiveUp => if w.control.Creating? then w.(control := Idle) else w
    case AnswerCreate(accepted) => AnswerStep(w, accepted)
    case SendDelete(arrives, accepted) => DeleteStep(w, arrives, accepted)
    case Crash => CrashStep(w)
  }

  datatype Action = Environment(x: Outside) | Controller(c: Call)

  function Act(w: World, a: Action): (r: World)
    requires w.store.versions != []
    ensures |w.store.versions| <= |r.store.versions|
  {
    match a
    case Environment(x) => OutsideAct(w, x)
    case Controller(c) => Step(w, c)
  }

  function Run(w: World, acts: seq<Action>): (r: World)
    requires w.store.versions != []
    ensures |w.store.versions| <= |r.store.versions|
    decreases |acts|
  {
    if acts == [] then w else Act(Run(w, acts[..|acts| - 1]), acts[|acts| - 1])
  }

  /** Nothing stored, nothing sent. */
  const START := World(Store([None], 0, 0), Idle, Keptn(false, 0, 0), [])

  // ---------- The invariant of the store ----------

  predicate Live(v: Option<Object>) {
    v.Some? && v.value.mine && !v.value.deleting
  }

  predicate Same(v: Option<Object>, uid: nat) {
    v.Some? && v.value.uid == uid
  }

  predicate KeepsDeleting(v: Option<Object>, later: Option<Object>) {
    v.Some? && v.value.deleting && Same(later, v.value.uid) ==> later.value.deleting
  }

  /** Versions carry used uids, and deletion is never taken back. */
  predicate Lifelines(s: Store) {
    && s.versions != [] && s.shown < |s.versions|
    && (forall i :: 0 <= i < |s.versions| && s.versions[i].Some? ==> s.versions[i].value.uid < s.nextUid)
    && (forall i, j :: 0 <= i <= j < |s.versions| ==> KeepsDeleting(s.versions[i], s.versions[j]))
  }

  /** A version the cache may still show with the finalizer and not under deletion: the object still holds it. */
  predicate Held(s: Store)
    requires s.versions != []
  {
    forall i :: s.shown <= i < |s.versions| && Live(s.versions[i]) ==>
      Same(Last(s), s.versions[i].value.uid) && Last(s).value.mine
  }

  /** The copy is the version it claims to be, read no earlier than the cache has shown. */
  predicate Copied(s: Store, at: nat, o: Object) {
    s.shown <= at < |s.versions| && s.versions[at] == Some(o)
  }

  predicate InHand(s: Store, control: Control) {
    match control
    case Idle => true
    case Adding(at, o) => Copied(s, at, o) && !o.mine && !o.deleting
    case Probing(at, o) => Copied(s, at, o) && Live(Some(o))
    case Marking(at, o, _) => Copied(s, at, o) && Live(Some(o))
    case Creating(at, o) => Copied(s, at, o) && Live(Some(o))
    case Awaiting(at, o, _) => Copied(s, at, o) && Live(Some(o))
    case Deleting(at, o) => Copied(s, at, o) && o.mine && o.deleting && at == s.shown
    case Removing(at, o) => Copied(s, at, o) && o.mine && o.deleting && at == s.shown
  }

  predicate Stored(w: World) {
    Lifelines(w.store) && Held(w.store) && InHand(w.store, w.control)
  }

  /** A new version of the stored object: deletion stays, and so does the finalizer. */
  predicate Follows(s: Store, o: Object)
    requires s.versions != []
  {
    Same(Last(s), o.uid) && (Last(s).value.deleting ==> o.deleting) && (Last(s).value.mine ==> o.mine)
  }

  lemma PutLifelines(s: Store, o: Object)
    requires Lifelines(s) && Same(Last(s), o.uid) && (Last(s).value.deleting ==> o.deleting)
    ensures Lifelines(Put(s, o))
  {
    var t := Put(s, o);
    forall i, j | 0 <= i <= j < |t.versions| ensures KeepsDeleting(t.versions[i], t.versions[j]) {
      if j == |s.versions| && i < j { assert KeepsDeleting(s.versions[i], Last(s)); }
    }
  }

  lemma PutHeld(s: Store, o: Object)
    requires Lifelines(s) && Held(s) && Follows(s, o)
    ensures Held(Put(s, o))
  {
    var t := Put(s, o);
    forall i | t.shown <= i < |t.versions| && Live(t.versions[i])
      ensures Same(Last(t), t.versions[i].value.uid) && Last(t).value.mine
    {
      if i < |s.versions| { assert Live(s.versions[i]); }
    }
  }

  /** Putting the finalizer on the stored object, or changing anything else of it. */
  lemma WriteKeeps(w: World, o: Object, control: Control)
    requires Stored(w) && Follows(w.store, o) && InHand(Put(w.store, o), control)
    ensures Stored(Write(w, o, control))
  {
    PutLifelines(w.store, o);
    PutHeld(w.store, o);
  }

  /** Taking the finalizer off: every version the cache may still show is under deletion. */
  lemma TakeOff(w: World, o: Object)
    requires Stored(w) && w.control == Removing(|w.store.versions| - 1, o)
    ensures Stored(Write(w, o.(mine := false), Idle))
  {
    PutLifelines(w.store, o.(mine := false));
    var s := w.store;
    forall i | s.shown <= i < |s.versions| ensures !Live(s.versions[i]) {
      assert KeepsDeleting(s.versions[s.shown], s.versions[i]);
    }
  }

  lemma CreateKeeps(w: World, mine: bool, others: bool)
    requires Stored(w) && Last(w.store) == None
    ensures Stored(OutsideAct(w, Create(mine, others)))
  {
    var s, t := w.store, OutsideAct(w, Create(mine, others)).store;
    forall i, j | 0 <= i <= j < |t.versions| ensures KeepsDeleting(t.versions[i], t.versions[j]) {
      if j < |s.versions| { assert KeepsDeleting(s.versions[i], s.versions[j]); }
    }
    InHandGrows(s, t, w.control);
  }

  lemma InHandGrows(s: Store, t: Store, control: Control)
    requires InHand(s, control) && s.shown == t.shown && s.versions <= t.versions
    ensures InHand(t, control)
  {}

  lemma OutsideKeepsStored(w: World, x: Outside)
    requires Stored(w)
    ensures Stored(OutsideAct(w, x))
  {
    var last := Last(w.store);
    match x
    case Create(mine, others) => if last == None { CreateKeeps(w, mine, others); }
    case Delete =>
      if last.Some? && !last.value.deleting {
        InHandGrows(w.store, Put(w.store, last.value.(deleting := true)), w.control);
        WriteKeeps(w, last.value.(deleting := true), w.control);
      }
    case Edit(others, exists') =>
      if last.Some? {
        var o := last.value.(others := others, projectExists := exists');
        InHandGrows(w.store, Put(w.store, o), w.control);
        WriteKeeps(w, o, w.control);
      }
    case _ =>
  }

  lemma AddingKeeps(w: World, at: nat, o: Object, outcome: Outcome)
    requires Stored(w) && w.control == Adding(at, o)
    ensures Stored(UpdateStep(w, outcome))
  {
    if Written(w.store, at, outcome) {
      var mine := o.(mine := true);
      WriteKeeps(w, mine, if outcome == Answered then Probing(at + 1, mine) else Idle);
    }
  }

  lemma MarkingKeeps(w: World, at: nat, o: Object, seen: bool, outcome: Outcome)
    requires Stored(w) && w.control == Marking(at, o, seen)
    ensures Stored(UpdateStep(w, outcome))
  {
    if Written(w.store, at, outcome) { WriteKeeps(w, o.(projectExists := seen), Idle); }
  }

  lemma RemovingKeeps(w: World, at: nat, o: Object, outcome: Outcome)
    requires Stored(w) && w.control == Removing(at, o)
    ensures Stored(UpdateStep(w, outcome))
  {
    if Written(w.store, at, outcome) { TakeOff(w, o); }
  }

  lemma UpdateKeeps(w: World, outcome: Outcome)
    requires Stored(w)
    ensures Stored(UpdateStep(w, outcome))
  {
    match w.control
    case Adding(at, o) => AddingKeeps(w, at, o, outcome);
    case Marking(at, o, seen) => MarkingKeeps(w, at, o, seen, outcome);
    case Removing(at, o) => RemovingKeeps(w, at, o, outcome);
    case _ =>
  }

  lemma ReadKeeps(w: World, at: nat)
    requires Stored(w)
    ensures Stored(ReadStep(w, at))
  {}

  /** A call that does not touch the store. */
  lemma MoveKeeps(w: World, c: Call)
    requires Stored(w) && !c.Read? && !c.Update?
    ensures Stored(Step(w, c)) && Step(w, c).store == w.store
  {}

  lemma StepKeepsStored(w: World, c: Call)
    requires Stored(w)
    ensures Stored(Step(w, c))
  {
    match c
    case Update(outcome) => UpdateKeeps(w, outcome);
    case Read(at) => ReadKeeps(w, at);
    case _ => MoveKeeps(w, c);
  }
}
