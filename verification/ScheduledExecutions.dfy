/**
 Scheduled executions and the sequence executions they create
 (keptn-operator/controllers/keptnscheduledexeccontroller/keptnscheduledexec_controller.go:58-112,
 keptn-operator/controllers/keptnsequenceexecutioncontroller/keptnsequenceexecution_controller.go:101-178).
 */
module ScheduledExecutions {
  import opened Wrappers

  type Spec = string

  datatype Hash = HashOf(spec: Spec)

  datatype Status = Status(projectExists: bool, serviceExists: bool, context: string, lastHash: Option<Hash>,
                           pending: bool)

  /** A sequence execution; `context` is "" until Keptn has answered. */
  datatype Execution = Execution(spec: Spec, status: Status)

  /** A scheduled execution; `start` is `None` when its start time does not parse. */
  datatype Schedule = Schedule(start: Option<int>, template: Spec, started: bool)

  /** Executions are named by their position; `events` lists the execution of every accepted Keptn event. */
  datatype World = World(schedule: Schedule, executions: seq<Execution>, events: seq<nat>)

  /** The clock is read twice in one run. */
  datatype Moment = Moment(first: int, second: int, createWorks: bool, writeWorks: bool)

  datatype Env = Env(instanceKnown: bool, projectSeen: bool, serviceSeen: bool, answer: Option<string>,
                     writeWorks: bool)

  const UNTOUCHED := Status(false, false, "", None, false)

  // ---------- One run of each controller ----------

  function ScheduleStep(w: World, m: Moment): World {
    if w.schedule.start == None then w
    else
      var start := w.schedule.start.value;
      if start > m.first && w.schedule.started then
        if m.writeWorks then w.(schedule := w.schedule.(started := false)) else w
      else if start < m.second && !w.schedule.started then
        if !m.createWorks then w
        else
          World(if m.writeWorks then w.schedule.(started := true) else w.schedule,
                w.executions + [Execution(w.schedule.template, UNTOUCHED)], w.events)
      else w
  }

  predicate NeedsTrigger(x: Execution) {
    x.status.context == "" || x.status.lastHash != Some(HashOf(x.spec)) || x.status.pending
  }

  function SetStatus(w: World, i: nat, s: Status, works: bool): World
    requires i < |w.executions|
  {
    if works then w.(executions := w.executions[i := w.executions[i].(status := s)]) else w
  }

  function ExecutionStep(w: World, i: nat, env: Env): World {
    if !env.instanceKnown || i >= |w.executions| then w
    else
      var x := w.executions[i];
      if !env.projectSeen then SetStatus(w, i, x.status.(projectExists := false, pending := true), env.writeWorks)
      else if !x.status.projectExists then SetStatus(w, i, x.status.(projectExists := true), env.writeWorks)
      else if !env.serviceSeen then SetStatus(w, i, x.status.(serviceExists := false, pending := true), env.writeWorks)
      else if !x.status.serviceExists then SetStatus(w, i, x.status.(serviceExists := true), env.writeWorks)
      else if NeedsTrigger(x) && env.answer.Some? then
        SetStatus(w.(events := w.events + [i]), i,
                  x.status.(pending := false, context := env.answer.value, lastHash := Some(HashOf(x.spec))),
                  env.writeWorks)
      else w
  }

  class Controllers {
    var schedule: Schedule
    var executions: seq<Execution>
    var events: seq<nat>

    constructor (w: World)
      ensures State() == w
    {
      schedule, executions, events := w.schedule, w.executions, w.events;
    }

    ghost function State(): World
      reads this
    {
      World(schedule, executions, events)
    }

    /** `Reconcile` of a scheduled execution. */
    method ReconcileSchedule(m: Moment)
      modifies this
      ensures State() == ScheduleStep(old(State()), m)
    {
      if schedule.start == None {
        return;
      }
      var start := schedule.start.value;
      if start > m.first && schedule.started {
        if m.writeWorks {
          schedule := schedule.(started := false);
        }
        return;
      }
      if start < m.second && !schedule.started {
        if !m.createWorks {
          return;
        }
        executions := executions + [Execution(schedule.template, UNTOUCHED)];
        if m.writeWorks {
          schedule := schedule.(started := true);
        }
      }
    }

    method UpdateStatus(i: nat, s: Status, works: bool)
      requires i < |executions|
      modifies this`executions
      ensures State() == SetStatus(old(State()), i, s, works)
    {
      if works {
        executions := executions[i := executions[i].(status := s)];
      }
    }

    /** `Reconcile` of a sequence execution. */
    method ReconcileExecution(i: nat, env: Env)
      modifies this
      ensures State() == ExecutionStep(old(State()), i, env)
    {
      if !env.instanceKnown || i >= |executions| {
        return;
      }
      var x := executions[i];
      if !env.projectSeen {
        UpdateStatus(i, x.status.(projectExists := false, pending := true), env.writeWorks);
        return;
      } else if !x.status.projectExists {
        UpdateStatus(i, x.status.(projectExists := true), env.writeWorks);
        return;
      }
      if !env.serviceSeen {
        UpdateStatus(i, x.status.(serviceExists := false, pending := true), env.writeWorks);
        return;
      } else if !x.status.serviceExists {
        UpdateStatus(i, x.status.(serviceExists := true), env.writeWorks);
        return;
      }
      if NeedsTrigger(x) && env.answer.Some? {
        events := events + [i];
        UpdateStatus(i, x.status.(pending := false, context := env.answer.value, lastHash := Some(HashOf(x.spec))),
                     env.writeWorks);
      }
    }
  }

  // ---------- Whole runs ----------

  /** Users may change the start time. */
  datatype Action = RunSchedule(moment: Moment) | RunExecution(i: nat, env: Env) | Reschedule(start: Option<int>)

  function Act(w: World, a: Action): World {
    match a
    case RunSchedule(m) => ScheduleStep(w, m)
    case RunExecution(i, env) => ExecutionStep(w, i, env)
    case Reschedule(start) => w.(schedule := w.schedule.(start := start))
  }

  function Run(w: World, acts: seq<Action>): World {
    if acts == [] then w else Act(Run(w, Front(acts)), Last(acts))
  }

  function Front(acts: seq<Action>): seq<Action>
    requires acts != []
  {
    acts[..|acts| - 1]
  }

  function Last(acts: seq<Action>): Action
    requires acts != []
  {
    acts[|acts| - 1]
  }

  /** The latest reading of the clock, or `from`. */
  function Clock(from: int, acts: seq<Action>): int {
    if acts == [] then from
    else
      match Last(acts)
      case RunSchedule(m) => m.second
      case _ => Clock(from, Front(acts))
  }

  /** The clock never goes back, the start time stays, status writes succeed and Keptn's answers are not empty. */
  predicate Ordinary(from: int, acts: seq<Action>) {
    acts == [] ||
    (Ordinary(from, Front(acts)) &&
     match Last(acts)
     case RunSchedule(m) => Clock(from, Front(acts)) <= m.first <= m.second && m.writeWorks
     case RunExecution(_, env) => env.writeWorks && env.answer != Some("")
     case Reschedule(_) => false)
  }

  /** Some run after the start time could create its execution. */
  predicate RanAfterStart(start: int, acts: seq<Action>) {
    exists a :: a in acts && a.RunSchedule? && start < a.moment.second && a.moment.createWorks
  }

  /** A run of the execution that sees the project or service missing once an event has been sent. */
  predicate SeesMissingAgain(w: World, a: Action) {
    && a.RunExecution? && a.i < |w.executions| && a.env.instanceKnown && w.executions[a.i].status.context != ""
    && (!a.env.projectSeen || (w.executions[a.i].status.projectExists && !a.env.serviceSeen))
  }

  function Sightings(w: World, acts: seq<Action>): nat {
    if acts == [] then 0
    else Sightings(w, Front(acts)) + if SeesMissingAgain(Run(w, Front(acts)), Last(acts)) then 1 else 0
  }

  predicate NotStarted(w: World) {
    w.schedule.start.Some? && !w.schedule.started && w.executions == [] && w.events == []
  }

  /**
   Where the single execution stands. The bound counts one event for the first trigger, one for every later sighting of
   a missing project or service, and keeps one in hand while an update is pending.
   */
  predicate Accounted(w: World, sightings: nat) {
    if |w.executions| == 0 then w.events == []
    else
      && |w.executions| == 1
      && var x := w.executions[0];
      && x.spec == w.schedule.template
      && (if x.status.context == "" then w.events == [] && x.status.lastHash == None
          else x.status.lastHash == Some(HashOf(x.spec)) && 0 < |w.events| &&
               |w.events| + (if x.status.pending then 1 else 0) <= 1 + sightings)
  }

  /**
   A scheduled execution creates exactly one sequence execution once it is run after its start time, and never a second
   one; that execution sends at most one event plus one for every time its project or service was seen missing after an
   event.
   */
  lemma {:induction false} CreatesExactlyOne(w: World, from: int, acts: seq<Action>)
    requires NotStarted(w) && Ordinary(from, acts)
    ensures var r := Run(w, acts);
      && r.schedule == w.schedule.(started := RanAfterStart(w.schedule.start.value, acts))
      && |r.executions| == (if RanAfterStart(w.schedule.start.value, acts) then 1 else 0)
      && (r.schedule.started ==> w.schedule.start.value < Clock(from, acts))
      && Accounted(r, Sightings(w, acts))
    decreases acts
  {
    if acts != [] {
      var front, last := Front(acts), Last(acts);
      CreatesExactlyOne(w, from, front);
      RanAfterNext(w.schedule.start.value, acts);
      OneStep(w, Run(w, front), from, acts);
    }
  }

  lemma RanAfterNext(start: int, acts: seq<Action>)
    requires acts != []
    ensures var last := Last(acts);
      RanAfterStart(start, acts) <==>
      RanAfterStart(start, Front(acts)) ||
      (last.RunSchedule? && start < last.moment.second && last.moment.createWorks)
  {
    var last := Last(acts);
    assert acts == Front(acts) + [last];
    if last.RunSchedule? && start < last.moment.second && last.moment.createWorks { assert last in acts; }
  }

  /** `created` says whether a run after the start could create the execution. */
  predicate Started(w: World, r: World, created: bool, clock: int, sightings: nat) {
    && w.schedule.start.Some?
    && r.schedule == w.schedule.(started := created) && |r.executions| == (if created then 1 else 0)
    && (created ==> w.schedule.start.value < clock)
    && Accounted(r, sightings)
  }

  lemma OneStep(w: World, r: World, from: int, acts: seq<Action>)
    requires acts != [] && Ordinary(from, acts) && !w.schedule.started && w.schedule.start.Some?
    requires r == Run(w, Front(acts))
    requires Started(w, r, RanAfterStart(w.schedule.start.value, Front(acts)), Clock(from, Front(acts)),
                     Sightings(w, Front(acts)))
    ensures var last := Last(acts);
      Started(w, Act(r, last), RanAfterStart(w.schedule.start.value, acts), Clock(from, acts), Sightings(w, acts))
  {
    RanAfterNext(w.schedule.start.value, acts);
    match Last(acts)
    case RunSchedule(m) => ScheduleKeeps(w, r, m, RanAfterStart(w.schedule.start.value, Front(acts)),
                                         Clock(from, Front(acts)), Sightings(w, Front(acts)));
    case RunExecution(i, env) => ExecutionKeeps(w, r, i, env, RanAfterStart(w.schedule.start.value, Front(acts)),
                                                Clock(from, acts), Sightings(w, Front(acts)));
  }

  lemma ScheduleKeeps(w: World, r: World, m: Moment, created: bool, clock: int, sightings: nat)
    requires Started(w, r, created, clock, sightings) && clock <= m.first <= m.second && m.writeWorks
    requires !w.schedule.started
    ensures Started(w, ScheduleStep(r, m), created || (w.schedule.start.value < m.second && m.createWorks), m.second,
                    sightings)
  {}

  lemma ExecutionKeeps(w: World, r: World, i: nat, env: Env, created: bool, clock: int, sightings: nat)
    requires Started(w, r, created, clock, sightings) && env.writeWorks && env.answer != Some("")
    ensures Started(w, ExecutionStep(r, i, env), created, clock,
                    sightings + if SeesMissingAgain(r, RunExecution(i, env)) then 1 else 0)
  {}

  /** Without such a sighting there is at most one event. */
  lemma AtMostOneEvent(w: World, from: int, acts: seq<Action>)
    requires NotStarted(w) && Ordinary(from, acts) && Sightings(w, acts) == 0
    ensures |Run(w, acts).events| <= 1
  {
    CreatesExactlyOne(w, from, acts);
  }

  /** A sighting that is the first one since the last event. */
  predicate SeesMissingAnew(w: World, a: Action) {
    SeesMissingAgain(w, a) && !w.executions[a.i].status.pending
  }

  function NewSightings(w: World, acts: seq<Action>): nat {
    if acts == [] then 0
    else NewSightings(w, Front(acts)) + if SeesMissingAnew(Run(w, Front(acts)), Last(acts)) then 1 else 0
  }

  /** The single execution owes an event for its last sighting. */
  predicate Owes(w: World) {
    |w.executions| == 1 && w.executions[0].status.context != "" && w.executions[0].status.pending
  }

  predicate SentOne(w: World) {
    |w.executions| == 1 && w.executions[0].status.context != ""
  }

  lemma RunAccounted(w: World, from: int, acts: seq<Action>)
    requires NotStarted(w) && Ordinary(from, acts)
    ensures |Run(w, acts).executions| <= 1 && Accounted(Run(w, acts), Sightings(w, acts))
  {
    CreatesExactlyOne(w, from, acts);
  }

  /**
   Exactly how many events are sent: none before Keptn has answered the first one, and from then on one, plus one for
   every run of sightings without an event between them, but for the last if its event is still due.
   */
  lemma {:induction false} EventsExactly(w: World, from: int, acts: seq<Action>)
    requires NotStarted(w) && Ordinary(from, acts)
    ensures var r := Run(w, acts);
      |r.events| == if SentOne(r) then 1 + NewSightings(w, acts) - (if Owes(r) then 1 else 0) else 0
    ensures !SentOne(Run(w, acts)) ==> NewSightings(w, acts) == 0
    decreases acts
  {
    if acts != [] {
      EventsExactly(w, from, Front(acts));
      RunAccounted(w, from, Front(acts));
      RunAccounted(w, from, acts);
    }
  }

  // ---------- Progress ----------

  predicate Good(env: Env) {
    && env.instanceKnown && env.projectSeen && env.serviceSeen
    && env.answer.Some? && env.answer.value != "" && env.writeWorks
  }

  /** The number of good runs until the execution has nothing to send. */
  function Distance(x: Execution): nat {
    (if x.status.projectExists then 0 else 1) + (if x.status.serviceExists then 0 else 1) +
    (if NeedsTrigger(x) then 1 else 0)
  }

  function RunGood(w: World, i: nat, envs: seq<Env>): World
    decreases envs
  {
    if envs == [] then w else RunGood(ExecutionStep(w, i, envs[0]), i, envs[1..])
  }

  /** A new execution sends its event with its third good run, and good runs send no other. */
  lemma {:induction false} GoodRunsSendOne(w: World, i: nat, envs: seq<Env>)
    requires i < |w.executions| && forall k :: 0 <= k < |envs| ==> Good(envs[k])
    ensures var r := RunGood(w, i, envs);
      && i < |r.executions| && Distance(w.executions[i]) <= 3
      && (Distance(r.executions[i]) == 0 <==> |envs| >= Distance(w.executions[i]))
      && r.events == w.events + if NeedsTrigger(w.executions[i]) && |envs| >= Distance(w.executions[i]) then [i] else []
    decreases envs
  {
    if envs != [] {
      GoodRunsSendOne(ExecutionStep(w, i, envs[0]), i, envs[1..]);
    }
  }

  // ---------- What one run does, whatever fails ----------

  /** Keptn has answered for this spec, and no update is pending. */
  predicate UpToDate(x: Execution) {
    x.status.context != "" && x.status.lastHash == Some(HashOf(x.spec)) && !x.status.pending
  }

  /** Enough good runs send exactly one event for an execution that is not up to date, and none for one that is. */
  lemma GoodRunsSendExactly(w: World, i: nat, envs: seq<Env>)
    requires i < |w.executions| && (forall k :: 0 <= k < |envs| ==> Good(envs[k]))
    requires |envs| >= Distance(w.executions[i])
    ensures RunGood(w, i, envs).events == w.events + if UpToDate(w.executions[i]) then [] else [i]
  {
    GoodRunsSendOne(w, i, envs);
  }

  /** A run that sends an event: all was seen, Keptn answered, and the status says what for and under which id. */
  lemma EventRecorded(w: World, i: nat, env: Env)
    requires i < |w.executions| && |ExecutionStep(w, i, env).events| > |w.events|
    ensures var r, x := ExecutionStep(w, i, env), w.executions[i];
      && r.events == w.events + [i] && env.instanceKnown && env.projectSeen && env.serviceSeen && env.answer.Some?
      && x.status.projectExists && x.status.serviceExists && !UpToDate(x)
      && r.executions == if env.writeWorks
           then w.executions[i := Execution(x.spec, Status(true, true, env.answer.value, Some(HashOf(x.spec)), false))]
           else w.executions
  {}

  /** A run that sends none changes at most the flags, to what it saw; the update is pending if something is missing. */
  lemma FlagsFollow(w: World, i: nat, env: Env)
    requires i < |w.executions| && env.instanceKnown && env.writeWorks && ExecutionStep(w, i, env).events == w.events
    ensures var was, now := w.executions[i].status, ExecutionStep(w, i, env).executions[i].status;
      var missing := !env.projectSeen || (was.projectExists && !env.serviceSeen);
      && now.projectExists == env.projectSeen
      && now.serviceExists == (if env.projectSeen && was.projectExists then env.serviceSeen else was.serviceExists)
      && now.pending == (missing || was.pending) && now.context == was.context && now.lastHash == was.lastHash
  {}

  // ---------- A new start time ----------

  /** A run before the new start takes the mark back, and a later one creates. */
  predicate RanAgain(start: int, acts: seq<Action>) {
    exists i, j :: 0 <= i < j < |acts| && RunsBefore(start, acts[i]) && RunsAfter(start, acts[j])
  }

  predicate RunsBefore(start: int, a: Action) {
    a.RunSchedule? && a.moment.first < start
  }

  predicate RunsAfter(start: int, a: Action) {
    a.RunSchedule? && start < a.moment.second && a.moment.createWorks
  }

  predicate AnyBefore(start: int, acts: seq<Action>) {
    exists i :: 0 <= i < |acts| && RunsBefore(start, acts[i])
  }

  /**
   A scheduled execution that has run and is given a new start time creates one more execution, for its template,
   exactly if it is run both before that time and after it. If no run sees the new time ahead, it never runs again.
   */
  lemma {:induction false} RescheduledExactly(w: World, start: int, from: int, acts: seq<Action>)
    requires w.schedule.started && Ordinary(from, acts)
    ensures var u := Act(w, Reschedule(Some(start)));
      var r := Run(u, acts);
      && |r.executions| == |w.executions| + (if RanAgain(start, acts) then 1 else 0)
      && (RanAgain(start, acts) ==> r.executions[|w.executions|].spec == w.schedule.template)
      && r.schedule == w.schedule.(start := Some(start), started := !AnyBefore(start, acts) || RanAgain(start, acts))
      && (RanAgain(start, acts) ==> start < Clock(from, acts))
    decreases acts
  {
    if acts != [] {
      RescheduledExactly(w, start, from, Front(acts));
      RanAgainNext(start, acts);
      var u := Act(w, Reschedule(Some(start)));
      var before := Run(u, Front(acts));
      match Last(acts)
      case RunSchedule(m) => assert Run(u, acts) == ScheduleStep(before, m);
      case RunExecution(i, env) => ExecutionsKept(before, i, env);
    }
  }

  lemma ExecutionsKept(w: World, i: nat, env: Env)
    ensures var r := ExecutionStep(w, i, env);
      && r.schedule == w.schedule && |r.executions| == |w.executions|
      && forall k :: 0 <= k < |w.executions| ==> r.executions[k].spec == w.executions[k].spec
  {}

  lemma RanAgainNext(start: int, acts: seq<Action>)
    requires acts != []
    ensures AnyBefore(start, acts) <==> AnyBefore(start, Front(acts)) || RunsBefore(start, Last(acts))
    ensures RanAgain(start, acts) <==>
            RanAgain(start, Front(acts)) || (AnyBefore(start, Front(acts)) && RunsAfter(start, Last(acts)))
  {
    var front, n := Front(acts), |acts| - 1;
    assert forall i :: 0 <= i < n ==> front[i] == acts[i];
  }

  /** After a creation whose status could not be written the next run creates another execution. */
  lemma LostMarkCreatesAgain(w: World, m: Moment, next: Moment)
    requires w.schedule.start.Some? && !w.schedule.started && !m.writeWorks && m.createWorks && next.createWorks
    requires w.schedule.start.value < m.second && w.schedule.start.value < next.second
    ensures ScheduleStep(ScheduleStep(w, m), next).executions ==
            var created := Execution(w.schedule.template, Status(false, false, "", None, false));
            w.executions + [created, created]
  {}

  // ---------- Exactly one event ----------

  /** A good run of the single execution. */
  predicate GoodRun(a: Action) {
    a.RunExecution? && a.i == 0 && Good(a.env)
  }

  function GoodRunsIn(acts: seq<Action>): nat {
    if acts == [] then 0 else GoodRunsIn(Front(acts)) + if GoodRun(Last(acts)) then 1 else 0
  }

  /** Every run of the execution sees its project and service, or does not know the instance yet. */
  predicate SeesAll(a: Action) {
    a.RunExecution? && a.i == 0 && a.env.instanceKnown ==> a.env.projectSeen && a.env.serviceSeen
  }

  predicate AllSeen(acts: seq<Action>) {
    forall i :: 0 <= i < |acts| ==> SeesAll(acts[i])
  }

  /** Such runs bring the single execution nearer to its event, and take it away from it never. */
  lemma {:induction false} NearerToEvent(w: World, from: int, before: seq<Action>, after: seq<Action>)
    requires NotStarted(w) && Ordinary(from, before + after) && AllSeen(after)
    requires RanAfterStart(w.schedule.start.value, before)
    ensures var r := Run(w, before + after);
      |r.executions| == 1 &&
      (Distance(r.executions[0]) + GoodRunsIn(after) <= 3 || Distance(r.executions[0]) == 0)
    decreases after
  {
    var acts := before + after;
    CreatesExactlyOne(w, from, acts);
    assert RanAfterStart(w.schedule.start.value, acts) by {
      var a :| a in before && a.RunSchedule? && w.schedule.start.value < a.moment.second && a.moment.createWorks;
      assert a in acts;
    }
    if after != [] {
      var front, last := Front(after), Last(after);
      assert Front(acts) == before + front && Last(acts) == last;
      assert SeesAll(after[|after| - 1]);
      NearerToEvent(w, from, before, front);
      OneStepNearer(Run(w, before + front), last);
    }
  }

  lemma OneStepNearer(w: World, a: Action)
    requires |w.executions| == 1 && |Act(w, a).executions| == 1 && SeesAll(a)
    requires a.RunExecution? ==> a.env.answer != Some("")
    ensures Distance(Act(w, a).executions[0]) <= Distance(w.executions[0])
    ensures GoodRun(a) && Distance(w.executions[0]) > 0 ==>
      Distance(Act(w, a).executions[0]) < Distance(w.executions[0])
  {}

  /** Every event is that of the only execution. */
  lemma {:induction false} EventsOfFirst(w: World, from: int, acts: seq<Action>)
    requires NotStarted(w) && Ordinary(from, acts)
    ensures forall j :: 0 <= j < |Run(w, acts).events| ==> Run(w, acts).events[j] == 0
    decreases acts
  {
    if acts != [] {
      EventsOfFirst(w, from, Front(acts));
      CreatesExactlyOne(w, from, Front(acts));
    }
  }

  /**
   Exactly one event: three good runs of the execution, with any runs of both controllers between them that do not find
   the project or the service missing, after any runs that do not find them missing once an event has been sent.
   */
  lemma ExactlyOneEvent(w: World, from: int, before: seq<Action>, after: seq<Action>)
    requires NotStarted(w) && Ordinary(from, before + after) && RanAfterStart(w.schedule.start.value, before)
    requires Sightings(w, before + after) == 0 && AllSeen(after) && GoodRunsIn(after) >= 3
    ensures Run(w, before + after).events == [0]
  {
    NearerToEvent(w, from, before, after);
    CreatesExactlyOne(w, from, before + after);
    EventsOfFirst(w, from, before + after);
  }

  // ---------- Two events ----------

  const SEEN := Env(true, true, true, Some("c"), true)

  /** A run of the schedule after its start, the three runs to the first event, and three more after a sighting. */
  const TWICE := [RunSchedule(Moment(1, 2, true, true)), RunExecution(0, SEEN), RunExecution(0, SEEN),
                  RunExecution(0, SEEN), RunExecution(0, SEEN.(projectSeen := false)), RunExecution(0, SEEN),
                  RunExecution(0, SEEN)]

  function RunAll(w: World, acts: seq<Action>): World
    decreases acts
  {
    if acts == [] then w else RunAll(Act(w, acts[0]), acts[1..])
  }

  lemma {:induction false} RunAllIsRun(w: World, before: seq<Action>, acts: seq<Action>)
    ensures Run(w, before + acts) == RunAll(Run(w, before), acts)
    decreases acts
  {
    if acts == [] {
      assert before + acts == before;
    } else {
      assert Front(before + [acts[0]]) == before && before + [acts[0]] + acts[1..] == before + acts;
      RunAllIsRun(w, before + [acts[0]], acts[1..]);
    }
  }

  /** A project that is not seen for a moment makes the one scheduled execution run twice. */
  lemma SecondEvent(template: Spec)
    ensures var w := World(Schedule(Some(1), template, false), [], []);
      NotStarted(w) && Ordinary(0, TWICE) && Run(w, TWICE).events == [0, 0]
  {
    var w := World(Schedule(Some(1), template, false), [], []);
    RunAllIsRun(w, [], TWICE);
    assert [] + TWICE == TWICE;
    SecondEventSteps(w, template);
    OrdinaryTwice(TWICE, 7);
    assert TWICE[..7] == TWICE;
  }

  lemma {:induction false} OrdinaryTwice(acts: seq<Action>, n: nat)
    requires acts == TWICE && n <= |acts|
    ensures Ordinary(0, acts[..n]) && Clock(0, acts[..n]) <= 2
  {
    if n > 0 {
      OrdinaryTwice(acts, n - 1);
      assert Front(acts[..n]) == acts[..n - 1];
    }
  }

  lemma SecondEventSteps(w: World, template: Spec)
    requires w == World(Schedule(Some(1), template, false), [], [])
    ensures RunAll(w, TWICE).events == [0, 0]
  {
    var hash, started := Some(HashOf(template)), w.schedule.(started := true);
    var w1 := World(started, [Execution(template, UNTOUCHED)], []);
    var w4 := World(started, [Execution(template, Status(true, true, "c", hash, false))], [0]);
    assert Act(w, TWICE[0]) == w1 && TWICE == [TWICE[0]] + TWICE[1..];
    ThreeMore(w1, TWICE[1..]);
    assert Act(Act(Act(w1, TWICE[1]), TWICE[2]), TWICE[3]) == w4;
    assert TWICE[1..][3..] == TWICE[4..];
    ThreeMore(w4, TWICE[4..]);
    assert Act(Act(Act(w4, TWICE[4]), TWICE[5]), TWICE[6]).events == [0, 0] && TWICE[4..][3..] == [];
  }

  lemma ThreeMore(w: World, acts: seq<Action>)
    requires |acts| >= 3
    ensures RunAll(w, acts) == RunAll(Act(Act(Act(w, acts[0]), acts[1]), acts[2]), acts[3..])
  {
    var w1 := Act(w, acts[0]);
    var w2 := Act(w1, acts[1]);
    assert RunAll(w, acts) == RunAll(w1, acts[1..]);
    assert acts[1..][0] == acts[1] && acts[1..][1..] == acts[2..];
    assert RunAll(w1, acts[1..]) == RunAll(w2, acts[2..]);
    assert acts[2..][0] == acts[2] && acts[2..][1..] == acts[3..];
  }
}
