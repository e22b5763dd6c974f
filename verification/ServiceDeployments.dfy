/**
 The service deployment controller: when a deployment event is sent, which Keptn context it carries, and what is
 remembered (keptn-operator/controllers/keptnservicedeploymentcontroller/keptnservicedeployment_controller.go:75-191).
 */
module ServiceDeployments {
  import opened Wrappers
  import ReleaseTag

  datatype Spec = Spec(project: string, service: string, stage: string, version: string, rest: string)

  /** The structure hash: a value of its own, so that equal hashes mean equal specs. */
  datatype Hash = HashOf(spec: Spec)

  datatype Status = Status(projectExists: bool, serviceExists: bool, pending: bool, context: string,
                           lastHash: Option<Hash>)

  datatype Deployment = Deployment(spec: Spec, status: Status)

  /**
   A stored deployment context: the hash last applied on each stage and the Keptn context id, "" when there is none.
   */
  datatype Context = Context(applied: map<string, Hash>, id: string)

  /** An accepted deployment event: the context it carried and the one Keptn answered. */
  datatype Event = Event(deployment: string, spec: Spec, carried: string, answered: string)

  datatype World = World(deployments: map<string, Deployment>, contexts: map<string, Context>, events: seq<Event>)

  /** What one run meets: the cluster, Keptn, and which calls succeed. `answer` is the id Keptn returns, if it does. */
  datatype Env = Env(instanceKnown: bool, projectSeen: bool, serviceSeen: bool, contextReadable: bool,
                     createWorks: bool, answer: Option<string>, contextWriteWorks: bool, statusWriteWorks: bool)

  function ContextName(s: Spec): string {
    ReleaseTag.Tag(s.project, s.service, s.version)
  }

  const EMPTY := Context(map[], "")

  // ---------- One run ----------

  function SetStatus(w: World, d: string, s: Status, works: bool): World
    requires d in w.deployments
  {
    if works then w.(deployments := w.deployments[d := w.deployments[d].(status := s)]) else w
  }

  /** The stage's entry is not the hash of this spec, or an update is pending. */
  predicate NeedsTrigger(d: Deployment, c: Context) {
    !(d.spec.stage in c.applied && c.applied[d.spec.stage] == HashOf(d.spec)) || d.status.pending
  }

  function Trigger(w: World, d: string, c: Context, env: Env): World
    requires d in w.deployments
  {
    if env.answer == None then w
    else
      var dep, id := w.deployments[d], env.answer.value;
      var name := ContextName(dep.spec);
      var c' := Context(c.applied[dep.spec.stage := HashOf(dep.spec)], id);
      var w1 := w.(events := w.events + [Event(d, dep.spec, c.id, id)]);
      // A context that could not be read has no name, and writing it fails.
      var w2 := if env.contextWriteWorks && env.contextReadable then w1.(contexts := w1.contexts[name := c']) else w1;
      SetStatus(w2, d, dep.status.(pending := false, context := id, lastHash := Some(HashOf(dep.spec))),
                env.statusWriteWorks)
  }

  /** The run reaches the context: both prerequisites are seen and recorded. */
  predicate ReachesContext(w: World, d: string, env: Env) {
    && env.instanceKnown && d in w.deployments
    && env.projectSeen && w.deployments[d].status.projectExists
    && env.serviceSeen && w.deployments[d].status.serviceExists
  }

  function Step(w: World, d: string, env: Env): World {
    if !env.instanceKnown || d !in w.deployments then w
    else
      var s := w.deployments[d].status;
      if !env.projectSeen then SetStatus(w, d, s.(projectExists := false, pending := true), env.statusWriteWorks)
      else if !s.projectExists then SetStatus(w, d, s.(projectExists := true), env.statusWriteWorks)
      else if !env.serviceSeen then SetStatus(w, d, s.(serviceExists := false, pending := true), env.statusWriteWorks)
      else if !s.serviceExists then SetStatus(w, d, s.(serviceExists := true), env.statusWriteWorks)
      else
        var name := ContextName(w.deployments[d].spec);
        if env.contextReadable && name !in w.contexts then
          if env.createWorks then w.(contexts := w.contexts[name := EMPTY]) else w
        else
          var c := if env.contextReadable then w.contexts[name] else EMPTY;
          if NeedsTrigger(w.deployments[d], c) then Trigger(w, d, c, env) else w
  }

  class Controller {
    var deployments: map<string, Deployment>
    var contexts: map<string, Context>
    var events: seq<Event>

    constructor (w: World)
      ensures State() == w
    {
      deployments, contexts, events := w.deployments, w.contexts, w.events;
    }

    ghost function State(): World
      reads this
    {
      World(deployments, contexts, events)
    }

    method UpdateStatus(d: string, s: Status, works: bool)
      requires d in deployments
      modifies this`deployments
      ensures State() == SetStatus(old(State()), d, s, works)
    {
      if works {
        deployments := deployments[d := deployments[d].(status := s)];
      }
    }

    /** `Reconcile`, with the order of its writes and its early returns. */
    method Reconcile(d: string, env: Env)
      modifies this
      ensures State() == Step(old(State()), d, env)
    {
      if !env.instanceKnown || d !in deployments {
        return;
      }
      var dep := deployments[d];
      if !env.projectSeen {
        UpdateStatus(d, dep.status.(projectExists := false, pending := true), env.statusWriteWorks);
        return;
      } else if !dep.status.projectExists {
        UpdateStatus(d, dep.status.(projectExists := true), env.statusWriteWorks);
        return;
      }
      if !env.serviceSeen {
        UpdateStatus(d, dep.status.(serviceExists := false, pending := true), env.statusWriteWorks);
        return;
      } else if !dep.status.serviceExists {
        UpdateStatus(d, dep.status.(serviceExists := true), env.statusWriteWorks);
        return;
      }
      var name := ContextName(dep.spec);
      var c := EMPTY;
      if env.contextReadable {
        if name !in contexts {
          if env.createWorks {
            contexts := contexts[name := EMPTY];
          }
          return;
        }
        c := contexts[name];
      }
      if NeedsTrigger(dep, c) {
        if env.answer == None {
          return;
        }
        var id := env.answer.value;
        events := events + [Event(d, dep.spec, c.id, id)];
        if env.contextWriteWorks && env.contextReadable {
          contexts := contexts[name := Context(c.applied[dep.spec.stage := HashOf(dep.spec)], id)];
        }
        UpdateStatus(d, dep.status.(pending := false, context := id, lastHash := Some(HashOf(dep.spec))),
                     env.statusWriteWorks);
      }
    }
  }

  // ---------- Whole runs ----------

  /** Runs of any deployment, interleaved with what users and the cluster do. */
  datatype Action =
    | Reconcile(d: string, env: Env)
    | Edit(d: string, spec: Spec)
    | Remove(d: string)
    | DropContext(name: string)

  function Act(w: World, a: Action): World {
    match a
    case Reconcile(d, env) => Step(w, d, env)
    case Edit(d, spec) =>
      var status := if d in w.deployments then w.deployments[d].status else Status(false, false, false, "", None);
      w.(deployments := w.deployments[d := Deployment(spec, status)])
    case Remove(d) => w.(deployments := w.deployments - {d})
    case DropContext(name) => w.(contexts := w.contexts - {name})
  }

  function Run(w: World, acts: seq<Action>): World {
    if acts == [] then w else Act(Run(w, acts[..|acts| - 1]), acts[|acts| - 1])
  }

  predicate Triggers(w: World, d: string, a: Action) {
    a.Reconcile? && a.d == d && |Act(w, a).events| > |w.events|
  }

  /** Nothing is due: the stage's entry is the hash of the spec and no update is pending. */
  predicate Settled(w: World, d: string) {
    && d in w.deployments
    && ContextName(w.deployments[d].spec) in w.contexts
    && !NeedsTrigger(w.deployments[d], w.contexts[ContextName(w.deployments[d].spec)])
  }

  /** A run of `d` that sees its project or its service missing. */
  predicate SeesMissing(w: World, d: string, a: Action) {
    && a.Reconcile? && a.d == d && a.env.instanceKnown && d in w.deployments
    && (!a.env.projectSeen || (w.deployments[d].status.projectExists && !a.env.serviceSeen))
  }

  /** A run of `d` that fails to read the deployment context and goes on with an empty one. */
  predicate ReadsNothing(w: World, d: string, a: Action) {
    a.Reconcile? && a.d == d && ReachesContext(w, d, a.env) && !a.env.contextReadable
  }

  /** A run of another deployment that sends an event for the same context and stage with another spec. */
  predicate Overwrites(w: World, d: string, a: Action) {
    && a.Reconcile? && a.d != d && d in w.deployments && a.d in w.deployments && Triggers(w, a.d, a)
    && var mine, other := w.deployments[d].spec, w.deployments[a.d].spec;
    ContextName(mine) == ContextName(other) && mine.stage == other.stage && mine != other
  }

  /** The deployment or its context is changed from outside. */
  predicate ChangedOutside(w: World, d: string, a: Action) {
    && d in w.deployments
    && match a
       case Edit(e, spec) => e == d && spec != w.deployments[d].spec
       case Remove(e) => e == d
       case DropContext(name) => name == ContextName(w.deployments[d].spec)
       case Reconcile(_, _) => false
  }

  predicate Disturbs(w: World, d: string, a: Action) {
    SeesMissing(w, d, a) || ReadsNothing(w, d, a) || Overwrites(w, d, a) || ChangedOutside(w, d, a)
  }

  /** A successful trigger with both writes settles the deployment. */
  lemma TriggerSettles(w: World, d: string, a: Action)
    requires Triggers(w, d, a) && a.env.contextReadable && a.env.contextWriteWorks && a.env.statusWriteWorks
    ensures Settled(Act(w, a), d)
  {}

  /** The status of a triggered deployment names the context of its event and the spec it was sent for. */
  lemma TriggerRecords(w: World, d: string, a: Action)
    requires Triggers(w, d, a) && a.env.statusWriteWorks
    ensures var r := Act(w, a);
      var dep, id := w.deployments[d], r.events[|w.events|].answered;
      d in r.deployments && r.deployments[d] == dep.(status := Status(true, true, false, id, Some(HashOf(dep.spec))))
  {}

  /** A run whose event is not accepted, or whose context cannot be created, changes nothing. */
  lemma RefusedChangesNothing(w: World, d: string, env: Env)
    requires ReachesContext(w, d, env) && env.answer == None && !env.createWorks
    ensures Step(w, d, env) == w
  {}

  /** The flags of the prerequisites are what the last run saw whose status could be written. */
  lemma PrerequisitesFollow(w: World, d: string, env: Env)
    requires env.instanceKnown && d in w.deployments && env.statusWriteWorks
    ensures var was, now := w.deployments[d].status, Step(w, d, env).deployments[d].status;
      && now.projectExists == env.projectSeen
      && (env.projectSeen && was.projectExists ==> now.serviceExists == env.serviceSeen)
      && (!env.projectSeen || !was.projectExists ==> now.serviceExists == was.serviceExists)
      && (!env.projectSeen || (was.projectExists && !env.serviceSeen) ==> now.pending)
  {}

  /** A settled deployment sends nothing and stays settled, unless the action disturbs it. */
  lemma SettledStays(w: World, d: string, a: Action)
    requires Settled(w, d) && !Disturbs(w, d, a)
    ensures Settled(Act(w, a), d) && !Triggers(w, d, a)
  {}

  /** In a whole run, a settled deployment sends an event only after a disturbance. */
  lemma {:induction false} TriggerNeedsDisturbance(w: World, d: string, acts: seq<Action>, last: Action)
    returns (i: nat)
    requires Settled(w, d) && Triggers(Run(w, acts), d, last)
    ensures i <= |acts| && Disturbs(Run(w, acts[..i]), d, if i < |acts| then acts[i] else last)
  {
    var j := 0;
    while j < |acts| && !Disturbs(Run(w, acts[..j]), d, acts[j])
      invariant 0 <= j <= |acts| && Settled(Run(w, acts[..j]), d)
    {
      SettledStays(Run(w, acts[..j]), d, acts[j]);
      assert acts[..j + 1][..j] == acts[..j];
      j := j + 1;
    }
    if j == |acts| {
      assert acts[..j] == acts;
      if !Disturbs(Run(w, acts), d, last) { SettledStays(Run(w, acts), d, last); }
    }
    i := j;
  }

  /**
   Between two triggers of one deployment whose writes succeeded there was a disturbance: a run that saw the project or
   service missing, an unreadable context, another deployment's event for the same context and stage, or a change made
   from outside.
   */
  lemma BetweenTriggers(w: World, d: string, first: Action, acts: seq<Action>, last: Action) returns (i: nat)
    requires Triggers(w, d, first)
    requires first.env.contextReadable && first.env.contextWriteWorks && first.env.statusWriteWorks
    requires Triggers(Run(Act(w, first), acts), d, last)
    ensures i <= |acts| && Disturbs(Run(Act(w, first), acts[..i]), d, if i < |acts| then acts[i] else last)
  {
    TriggerSettles(w, d, first);
    i := TriggerNeedsDisturbance(Act(w, first), d, acts, last);
  }

  /** A pending update is never lost: it is cleared only by an event that Keptn accepted. */
  lemma PendingOnlyClearedByTrigger(w: World, d: string, a: Action)
    requires d in w.deployments && w.deployments[d].status.pending
    requires d in Act(w, a).deployments && !Act(w, a).deployments[d].status.pending
    ensures Triggers(w, d, a) && a.env.answer.Some?
    ensures Act(w, a).events[|w.events|].deployment == d && Act(w, a).events[|w.events|].spec == w.deployments[d].spec
  {}

  // ---------- Progress ----------

  /** A run in which everything is there and every call works. */
  predicate Good(env: Env) {
    && env.instanceKnown && env.projectSeen && env.serviceSeen && env.contextReadable && env.createWorks
    && env.answer.Some? && env.contextWriteWorks && env.statusWriteWorks
  }

  predicate Quiet(w: World, d: string) {
    Settled(w, d) && w.deployments[d].status.projectExists && w.deployments[d].status.serviceExists
  }

  /** The number of good runs a deployment is away from being quiet. */
  function Distance(w: World, d: string): nat
    requires d in w.deployments
  {
    var dep := w.deployments[d];
    var name := ContextName(dep.spec);
    (if dep.status.projectExists then 0 else 1) + (if dep.status.serviceExists then 0 else 1) +
    (if name !in w.contexts then 2 else if NeedsTrigger(dep, w.contexts[name]) then 1 else 0)
  }

  lemma GoodRunAdvances(w: World, d: string, env: Env)
    requires d in w.deployments && Good(env)
    ensures d in Step(w, d, env).deployments
    ensures Distance(Step(w, d, env), d) == if Distance(w, d) == 0 then 0 else Distance(w, d) - 1
    ensures Distance(w, d) == 0 ==> Step(w, d, env) == w
  {}

  function RunGood(w: World, d: string, envs: seq<Env>): World
    decreases envs
  {
    if envs == [] then w else RunGood(Step(w, d, envs[0]), d, envs[1..])
  }

  /**
   From any state, `Distance` good runs (at most four) reach the quiet state, and further good runs change nothing.
   */
  lemma {:induction false} GoodRunsReachQuiet(w: World, d: string, envs: seq<Env>)
    requires d in w.deployments && forall i :: 0 <= i < |envs| ==> Good(envs[i])
    ensures d in RunGood(w, d, envs).deployments && Distance(w, d) <= 4
    ensures Quiet(RunGood(w, d, envs), d) <==> |envs| >= Distance(w, d)
    ensures Distance(w, d) == 0 ==> RunGood(w, d, envs) == w
    decreases envs
  {
    if envs != [] {
      GoodRunAdvances(w, d, envs[0]);
      GoodRunsReachQuiet(Step(w, d, envs[0]), d, envs[1..]);
    }
  }

  /** A good run of the deployment. */
  predicate GoodRun(d: string, a: Action) {
    a.Reconcile? && a.d == d && Good(a.env)
  }

  function GoodRunsOf(d: string, acts: seq<Action>): nat {
    if acts == [] then 0 else GoodRunsOf(d, acts[..|acts| - 1]) + if GoodRun(d, acts[|acts| - 1]) then 1 else 0
  }

  predicate Undisturbed(w: World, d: string, acts: seq<Action>) {
    forall i :: 0 <= i < |acts| ==> !Disturbs(Run(w, acts[..i]), d, acts[i])
  }

  /** What does not disturb a deployment never takes it away from being quiet, and its good runs bring it nearer. */
  lemma CalmAdvances(w: World, d: string, a: Action)
    requires d in w.deployments && !Disturbs(w, d, a)
    ensures d in Act(w, a).deployments && Distance(Act(w, a), d) <= Distance(w, d)
    ensures GoodRun(d, a) && Distance(w, d) > 0 ==> Distance(Act(w, a), d) < Distance(w, d)
  {
    if GoodRun(d, a) {
      GoodRunAdvances(w, d, a.env);
    } else if a.Reconcile? && a.d == d {
      OwnRunAdvances(w, d, a);
    } else {
      OthersAdvance(w, d, a);
    }
  }

  lemma OwnRunAdvances(w: World, d: string, a: Action)
    requires d in w.deployments && !Disturbs(w, d, a) && a.Reconcile? && a.d == d
    ensures d in Act(w, a).deployments && Distance(Act(w, a), d) <= Distance(w, d)
  {}

  lemma OthersAdvance(w: World, d: string, a: Action)
    requires d in w.deployments && !Disturbs(w, d, a) && (a.Reconcile? ==> a.d != d)
    ensures d in Act(w, a).deployments && Distance(Act(w, a), d) <= Distance(w, d)
  {}

  /**
   In any run of all deployments, with failing calls and changes from outside, that does not disturb this one:
   `Distance` good runs of it, at most four, reach the quiet state, whatever lies between them.
   */
  lemma {:induction false} GoodRunsAmongOthers(w: World, d: string, acts: seq<Action>)
    requires d in w.deployments && Undisturbed(w, d, acts)
    ensures var r := Run(w, acts);
      && d in r.deployments && Distance(w, d) <= 4
      && (Distance(r, d) + GoodRunsOf(d, acts) <= Distance(w, d) || Distance(r, d) == 0)
      && (Quiet(r, d) <==> Distance(r, d) == 0)
    decreases acts
  {
    if acts != [] {
      var n := |acts| - 1;
      assert Undisturbed(w, d, acts[..n]) by {
        forall i | 0 <= i < n ensures !Disturbs(Run(w, acts[..n][..i]), d, acts[..n][i]) {
          assert acts[..n][..i] == acts[..i];
        }
      }
      GoodRunsAmongOthers(w, d, acts[..n]);
      CalmAdvances(Run(w, acts[..n]), d, acts[n]);
    }
  }

  // ---------- How many events ----------

  /** The context says that this spec was the last one applied on its stage, and no update is pending. */
  predicate UpToDate(w: World, d: string) {
    d in w.deployments &&
    var dep := w.deployments[d];
    var name := ContextName(dep.spec);
    && name in w.contexts && dep.spec.stage in w.contexts[name].applied
    && w.contexts[name].applied[dep.spec.stage] == HashOf(dep.spec) && !dep.status.pending
  }

  /** Good runs send exactly one event, for the deployment's spec, or none if it is up to date. */
  lemma {:induction false} GoodRunsSendOne(w: World, d: string, envs: seq<Env>)
    requires d in w.deployments && (forall i :: 0 <= i < |envs| ==> Good(envs[i])) && |envs| >= Distance(w, d)
    ensures var r := RunGood(w, d, envs);
      && UpToDate(r, d)
      && (UpToDate(w, d) ==> r.events == w.events)
      && (!UpToDate(w, d) ==>
            && |r.events| == |w.events| + 1 && w.events <= r.events
            && r.events[|w.events|].deployment == d && r.events[|w.events|].spec == w.deployments[d].spec
            && r.events[|w.events|].carried == StoredId(w.contexts, ContextName(w.deployments[d].spec)))
    decreases envs
  {
    if envs != [] {
      GoodRunAdvances(w, d, envs[0]);
      GoodRunSends(w, d, envs[0]);
      GoodRunsSendOne(Step(w, d, envs[0]), d, envs[1..]);
    }
  }

  lemma GoodRunSends(w: World, d: string, env: Env)
    requires d in w.deployments && Good(env)
    ensures var r, spec := Step(w, d, env), w.deployments[d].spec;
      && d in r.deployments && r.deployments[d].spec == spec
      && (r == w.(events := r.events, deployments := r.deployments, contexts := r.contexts))
      && if UpToDate(r, d) && !UpToDate(w, d)
         then r.events == w.events + [Event(d, spec, StoredId(w.contexts, ContextName(spec)), env.answer.value)]
         else
           && r.events == w.events && (UpToDate(r, d) <==> UpToDate(w, d))
           && StoredId(r.contexts, ContextName(spec)) == StoredId(w.contexts, ContextName(spec))
  {}

  /** A run that sees the project or the service missing, and writes that down. */
  predicate Sights(w: World, d: string, env: Env) {
    && env.instanceKnown && d in w.deployments && env.statusWriteWorks
    && (!env.projectSeen || (w.deployments[d].status.projectExists && !env.serviceSeen))
  }

  /** After such a sighting good runs send exactly one event, also for a deployment that was up to date. */
  lemma SightingSendsAgain(w: World, d: string, env: Env, envs: seq<Env>)
    requires Sights(w, d, env) && forall i :: 0 <= i < |envs| ==> Good(envs[i])
    requires d in Step(w, d, env).deployments && |envs| >= Distance(Step(w, d, env), d)
    ensures var r := RunGood(Step(w, d, env), d, envs);
      && |r.events| == |w.events| + 1 && r.events[|w.events|].deployment == d
      && r.events[|w.events|].spec == w.deployments[d].spec
  {
    GoodRunsSendOne(Step(w, d, env), d, envs);
  }

  /** So does a changed spec that the context does not have for its stage. */
  lemma NewSpecSends(w: World, d: string, spec: Spec, envs: seq<Env>)
    requires d in w.deployments && forall i :: 0 <= i < |envs| ==> Good(envs[i])
    requires ContextName(spec) in w.contexts ==>
      var applied := w.contexts[ContextName(spec)].applied;
      spec.stage !in applied || applied[spec.stage] != HashOf(spec)
    requires |envs| >= Distance(Act(w, Edit(d, spec)), d)
    ensures var r := RunGood(Act(w, Edit(d, spec)), d, envs);
      && |r.events| == |w.events| + 1 && r.events[|w.events|].deployment == d && r.events[|w.events|].spec == spec
  {
    GoodRunsSendOne(Act(w, Edit(d, spec)), d, envs);
  }

  /** Runs of one deployment in which every call works, whatever they see of the project and the service. */
  predicate Working(env: Env) {
    && env.instanceKnown && env.contextReadable && env.createWorks && env.answer.Some?
    && env.contextWriteWorks && env.statusWriteWorks
  }

  function RunOf(w: World, d: string, envs: seq<Env>): World {
    if envs == [] then w else Step(RunOf(w, d, envs[..|envs| - 1]), d, envs[|envs| - 1])
  }

  /** Run `i` saw something missing. */
  predicate SightsAt(w: World, d: string, envs: seq<Env>, i: nat) {
    i < |envs| && Sights(RunOf(w, d, envs[..i]), d, envs[i])
  }

  /** Run `i` sent an event. */
  predicate SendsAt(w: World, d: string, envs: seq<Env>, i: nat) {
    i < |envs| && |RunOf(w, d, envs[..i + 1]).events| > |RunOf(w, d, envs[..i]).events|
  }

  /** There has been a sighting since the last event among the first `n` runs. */
  predicate Owes(w: World, d: string, envs: seq<Env>, n: nat) {
    n > 0 && n <= |envs| && (SightsAt(w, d, envs, n - 1) || (!SendsAt(w, d, envs, n - 1) && Owes(w, d, envs, n - 1)))
  }

  /** The sightings that are the first since the last event. */
  function NewSightings(w: World, d: string, envs: seq<Env>, n: nat): nat {
    if n == 0 || n > |envs| then 0
    else
      NewSightings(w, d, envs, n - 1) +
      if SightsAt(w, d, envs, n - 1) && !Owes(w, d, envs, n - 1) then 1 else 0
  }

  /** Exactly how many events an up-to-date deployment sends: one for each group of sightings, but for one still due. */
  lemma {:induction false} EventsBySightings(w: World, d: string, envs: seq<Env>, n: nat)
    requires UpToDate(w, d) && n <= |envs| && forall i :: 0 <= i < |envs| ==> Working(envs[i])
    ensures var r := RunOf(w, d, envs[..n]);
      && |r.events| == |w.events| + NewSightings(w, d, envs, n) - (if Owes(w, d, envs, n) then 1 else 0)
      && (UpToDate(r, d) <==> !Owes(w, d, envs, n)) && Recorded(w, r, d)
  {
    if n > 0 {
      EventsBySightings(w, d, envs, n - 1);
      assert envs[..n][..n - 1] == envs[..n - 1];
      WorkingStep(w, RunOf(w, d, envs[..n - 1]), d, envs[n - 1]);
    } else {
      assert envs[..0] == [];
    }
  }

  /** The spec is the same, and the context still says that it was applied. */
  predicate Recorded(w: World, r: World, d: string) {
    && d in w.deployments && d in r.deployments && r.deployments[d].spec == w.deployments[d].spec
    && var name, stage := ContextName(r.deployments[d].spec), r.deployments[d].spec.stage;
    && name in r.contexts && stage in r.contexts[name].applied
    && r.contexts[name].applied[stage] == HashOf(r.deployments[d].spec)
  }

  lemma WorkingStep(w: World, r: World, d: string, env: Env)
    requires Recorded(w, r, d) && Working(env)
    ensures var r' := Step(r, d, env);
      && Recorded(w, r', d)
      && |r'.events| == |r.events| + (if |r'.events| > |r.events| then 1 else 0)
      && (|r'.events| > |r.events| ==> !Sights(r, d, env) && !UpToDate(r, d) && UpToDate(r', d))
      && (Sights(r, d, env) ==> !UpToDate(r', d))
      && (|r'.events| == |r.events| && !Sights(r, d, env) ==> (UpToDate(r', d) <==> UpToDate(r, d)))
  {}

  // ---------- One context for one release ----------

  /** What Keptn is trusted with: it answers with a non-empty id, the one supplied if there was one. */
  predicate Echoed(e: Event) {
    e.answered != "" && (e.carried != "" ==> e.answered == e.carried)
  }

  predicate EchoedSince(events: seq<Event>, from: nat) {
    forall i :: from <= i < |events| ==> Echoed(events[i])
  }

  /** The id stored for a context, "" if there is none. */
  function StoredId(contexts: map<string, Context>, name: string): string {
    if name in contexts then contexts[name].id else ""
  }

  /** Every event but the first for its release, of those since `from`, carried the id that the others were answered. */
  predicate SameId(events: seq<Event>, from: nat) {
    forall i, j :: from <= i < j < |events| && ContextName(events[i].spec) == ContextName(events[j].spec) ==>
      events[j].carried == events[i].answered
  }

  /** The id an event was answered is stored. */
  predicate Remembered(contexts: map<string, Context>, events: seq<Event>, from: nat) {
    forall i :: from <= i < |events| ==> StoredId(contexts, ContextName(events[i].spec)) == events[i].answered != ""
  }

  predicate OneId(w: World, from: nat) {
    SameId(w.events, from) && Remembered(w.contexts, w.events, from)
  }

  /** An event for the release was sent since `from`. */
  predicate Sent(events: seq<Event>, from: nat, name: string) {
    exists i :: from <= i < |events| && ContextName(events[i].spec) == name
  }

  /**
   What the code does not guard against: the answer to the first event of a release is lost when it is written, an event
   is sent although the context could not be read, or the context of a release is dropped.
   */
  predicate Slips(w: World, from: nat, a: Action) {
    match a
    case Reconcile(d, env) =>
      Triggers(w, d, a) &&
      var name := ContextName(w.deployments[d].spec);
      if env.contextReadable then !env.contextWriteWorks && StoredId(w.contexts, name) == ""
      else Sent(w.events, from, name) || StoredId(w.contexts, name) != env.answer.value
    case DropContext(name) => Sent(w.events, from, name)
    case _ => false
  }

  /** The event of a run, and what becomes of the contexts. */
  lemma TriggerEffect(w: World, d: string, a: Action)
    requires Triggers(w, d, a)
    ensures d in w.deployments && a.env.answer.Some?
    ensures var spec, id := w.deployments[d].spec, a.env.answer.value;
      var name := ContextName(spec);
      && Act(w, a).events ==
         w.events + [Event(d, spec, if a.env.contextReadable then StoredId(w.contexts, name) else "", id)]
      && (forall n :: n != name ==> StoredId(Act(w, a).contexts, n) == StoredId(w.contexts, n))
      && StoredId(Act(w, a).contexts, name) ==
         if a.env.contextReadable && a.env.contextWriteWorks then id else StoredId(w.contexts, name)
  {}

  lemma NoEvent(w: World, a: Action)
    requires !(a.Reconcile? && Triggers(w, a.d, a))
    ensures Act(w, a).events == w.events
    ensures forall n :: StoredId(Act(w, a).contexts, n) ==
                        if a.DropContext? && a.name == n then "" else StoredId(w.contexts, n)
  {}

  lemma EventsGrow(w: World, a: Action)
    ensures w.events <= Act(w, a).events
  {}

  /** An event keeps the ids if it carried what the earlier ones were answered and is answered what is stored then. */
  lemma EventKeeps(w: World, a: Action, from: nat)
    requires OneId(w, from) && from <= |w.events| && a.Reconcile? && Triggers(w, a.d, a)
    requires EchoedSince(Act(w, a).events, from)
    ensures OneId(Act(w, a), from) <==> !Slips(w, from, a)
  {
    TriggerEffect(w, a.d, a);
    var r, k := Act(w, a), |w.events|;
    var name, e := ContextName(w.deployments[a.d].spec), r.events[k];
    assert Echoed(r.events[k]);
    if Slips(w, from, a) {
      if !a.env.contextReadable && Sent(w.events, from, name) {
        var i :| from <= i < k && ContextName(w.events[i].spec) == name;
        assert r.events[i] == w.events[i] && r.events[k].carried != r.events[i].answered;
      } else {
        assert StoredId(r.contexts, ContextName(r.events[k].spec)) != r.events[k].answered;
      }
    } else {
      forall i | from <= i < k
        ensures r.events[i] == w.events[i]
        ensures StoredId(r.contexts, ContextName(r.events[i].spec)) == r.events[i].answered != ""
        ensures ContextName(r.events[i].spec) == name ==> e.carried == r.events[i].answered
      {
        assert StoredId(w.contexts, ContextName(w.events[i].spec)) == w.events[i].answered;
      }
    }
  }

  /** The ids are kept by an action exactly if it does not slip. */
  lemma OneIdStep(w: World, a: Action, from: nat)
    requires OneId(w, from) && from <= |w.events| && EchoedSince(Act(w, a).events, from)
    ensures OneId(Act(w, a), from) <==> !Slips(w, from, a)
  {
    if a.Reconcile? && Triggers(w, a.d, a) {
      EventKeeps(w, a, from);
    } else {
      NoEvent(w, a);
      if Slips(w, from, a) {
        var i :| from <= i < |w.events| && ContextName(w.events[i].spec) == a.name;
        assert StoredId(Act(w, a).contexts, ContextName(Act(w, a).events[i].spec)) == "";
      }
    }
  }

  /** What is not stored shows in the next event for the release. */
  lemma ForgottenShows(w: World, from: nat, i: nat, a: Action)
    requires from <= i < |w.events| && w.events[i].answered != "" && a.Reconcile? && Triggers(w, a.d, a)
    requires ContextName(w.deployments[a.d].spec) == ContextName(w.events[i].spec)
    requires !a.env.contextReadable || StoredId(w.contexts, ContextName(w.events[i].spec)) != w.events[i].answered
    ensures !SameId(Act(w, a).events, from)
  {
    TriggerEffect(w, a.d, a);
    var r := Act(w, a);
    assert r.events[i] == w.events[i] && r.events[|w.events|].carried != r.events[i].answered;
  }

  /** Once an event of a release carried another id, or its id is not stored, no action mends that. */
  lemma BrokenStays(w: World, a: Action, from: nat)
    requires !OneId(w, from) && from <= |w.events|
    ensures !OneId(Act(w, a), from)
  {
    EventsGrow(w, a);
    var r := Act(w, a);
    if SameId(w.events, from) {
      var i :| from <= i < |w.events| &&
        !(StoredId(w.contexts, ContextName(w.events[i].spec)) == w.events[i].answered != "");
      assert r.events[i] == w.events[i];
      var name := ContextName(w.events[i].spec);
      if !(a.Reconcile? && Triggers(w, a.d, a)) {
        NoEvent(w, a);
      } else if ContextName(w.deployments[a.d].spec) != name {
        TriggerEffect(w, a.d, a);
      } else if w.events[i].answered != "" {
        ForgottenShows(w, from, i, a);
      }
    } else {
      var i, j :| from <= i < j < |w.events| && ContextName(w.events[i].spec) == ContextName(w.events[j].spec) &&
        w.events[j].carried != w.events[i].answered;
      assert r.events[i] == w.events[i] && r.events[j] == w.events[j];
    }
  }

  predicate SlipsAt(w: World, acts: seq<Action>, i: nat) {
    i < |acts| && Slips(Run(w, acts[..i]), |w.events|, acts[i])
  }

  predicate NeverSlips(w: World, acts: seq<Action>) {
    forall i :: 0 <= i < |acts| ==> !SlipsAt(w, acts, i)
  }

  lemma SlipsInFront(w: World, acts: seq<Action>, n: nat, i: nat)
    requires i < n <= |acts|
    ensures SlipsAt(w, acts[..n], i) <==> SlipsAt(w, acts, i)
  {
    assert acts[..n][..i] == acts[..i];
  }

  lemma NeverSlipsFront(w: World, acts: seq<Action>)
    requires acts != []
    ensures NeverSlips(w, acts) <==> NeverSlips(w, acts[..|acts| - 1]) && !SlipsAt(w, acts, |acts| - 1)
  {
    var n := |acts| - 1;
    forall i | 0 <= i < n ensures SlipsAt(w, acts[..n], i) <==> SlipsAt(w, acts, i) {
      SlipsInFront(w, acts, n, i);
    }
    if !NeverSlips(w, acts) {
      var i :| 0 <= i < |acts| && SlipsAt(w, acts, i);
      assert i < n ==> SlipsAt(w, acts[..n], i);
    }
  }

  /**
   If Keptn echoes what it is supplied: all events for one release, across stages and deployments, carry the id the
   first one was answered, and that id is stored, if and only if no action slipped.
   */
  lemma {:induction false} OneContextPerRelease(w: World, acts: seq<Action>)
    requires EchoedSince(Run(w, acts).events, |w.events|)
    ensures w.events <= Run(w, acts).events
    ensures OneId(Run(w, acts), |w.events|) <==> NeverSlips(w, acts)
    decreases acts
  {
    if acts != [] {
      var n := |acts| - 1;
      var front, r := acts[..n], Run(w, acts[..n]);
      EventsGrow(r, acts[n]);
      assert EchoedSince(r.events, |w.events|) by {
        forall i | |w.events| <= i < |r.events| ensures Echoed(r.events[i]) {
          assert r.events[i] == Run(w, acts).events[i];
        }
      }
      OneContextPerRelease(w, front);
      NeverSlipsFront(w, acts);
      if NeverSlips(w, front) {
        OneIdStep(r, acts[n], |w.events|);
      } else {
        BrokenStays(r, acts[n], |w.events|);
      }
    }
  }

  /** An id that is stored stays, as long as Keptn echoes it and nobody drops the context. */
  lemma {:induction false} StoredIdStays(w: World, acts: seq<Action>, name: string)
    requires EchoedSince(Run(w, acts).events, |w.events|) && StoredId(w.contexts, name) != ""
    requires DropContext(name) !in acts
    ensures w.events <= Run(w, acts).events && StoredId(Run(w, acts).contexts, name) == StoredId(w.contexts, name)
    decreases acts
  {
    if acts != [] {
      var n := |acts| - 1;
      var r := Run(w, acts[..n]);
      EventsGrow(r, acts[n]);
      assert EchoedSince(r.events, |w.events|) by {
        forall i | |w.events| <= i < |r.events| ensures Echoed(r.events[i]) {
          assert r.events[i] == Run(w, acts).events[i];
        }
      }
      StoredIdStays(w, acts[..n], name);
      assert acts[n] in acts;
      StoredIdStep(r, acts[n], name);
    }
  }

  lemma StoredIdStep(w: World, a: Action, name: string)
    requires EchoedSince(Act(w, a).events, |w.events|) && StoredId(w.contexts, name) != "" && a != DropContext(name)
    ensures StoredId(Act(w, a).contexts, name) == StoredId(w.contexts, name)
  {
    if a.Reconcile? && Triggers(w, a.d, a) {
      TriggerEffect(w, a.d, a);
      assert Echoed(Act(w, a).events[|w.events|]);
    } else {
      NoEvent(w, a);
    }
  }

  /** A run that cannot read the context sends an event, also a settled deployment's, and it carries no context. */
  lemma UnreadableSendsBare(w: World, d: string, env: Env)
    requires ReachesContext(w, d, env) && !env.contextReadable && env.answer.Some?
    ensures Step(w, d, env).events == w.events + [Event(d, w.deployments[d].spec, "", env.answer.value)]
    ensures Step(w, d, env).contexts == w.contexts
  {}

  // ---------- Two releases that get two contexts ----------

  const SPEC := Spec("shop", "cart", "dev", "1", "")
  const READY := Status(true, true, true, "", None)
  const FINE := Env(true, true, true, true, true, Some("x"), true, true)

  /** One deployment with both prerequisites recorded, and an empty context. */
  const FRESH := World(map["cart" := Deployment(SPEC, READY)], map[ContextName(SPEC) := EMPTY], [])

  /** The answer to the first event is lost when it is written, so the second one, good in all, starts a new context. */
  lemma LostWriteSplits()
    ensures var acts :=
      [Reconcile("cart", FINE.(contextWriteWorks := false)), Reconcile("cart", FINE.(answer := Some("y")))];
      && Run(FRESH, acts).events == [Event("cart", SPEC, "", "x"), Event("cart", SPEC, "", "y")]
      && EchoedSince(Run(FRESH, acts).events, 0) && !SameId(Run(FRESH, acts).events, 0)
  {
    var first := Reconcile("cart", FINE.(contextWriteWorks := false));
    var second := Reconcile("cart", FINE.(answer := Some("y")));
    TwoActs(FRESH, first, second);
    var events := Act(Act(FRESH, first), second).events;
    assert events[1].carried != events[0].answered;
  }

  /** The context is written, but the next run fails to read it: it sends again, into a new context. */
  lemma UnreadableSplits()
    ensures var acts :=
      [Reconcile("cart", FINE), Reconcile("cart", FINE.(contextReadable := false, answer := Some("y")))];
      && Run(FRESH, acts).events == [Event("cart", SPEC, "", "x"), Event("cart", SPEC, "", "y")]
      && EchoedSince(Run(FRESH, acts).events, 0) && !SameId(Run(FRESH, acts).events, 0)
  {
    var first := Reconcile("cart", FINE);
    var second := Reconcile("cart", FINE.(contextReadable := false, answer := Some("y")));
    TwoActs(FRESH, first, second);
    var events := Act(Act(FRESH, first), second).events;
    assert events[1].carried != events[0].answered;
  }

  lemma TwoActs(w: World, first: Action, second: Action)
    ensures Run(w, [first, second]) == Act(Act(w, first), second)
  {
    var acts := [first, second];
    assert acts[..1] == [first] && acts[..1][..0] == [];
    assert Run(w, acts[..1]) == Act(Run(w, []), first);
  }

  /** Two releases share a context only if their names collide, which dash-free services and versions rule out. */
  lemma ContextNameInjective(a: Spec, b: Spec)
    requires '-' !in a.service && '-' !in a.version && '-' !in b.service && '-' !in b.version
    requires ContextName(a) == ContextName(b)
    ensures a.project == b.project && a.service == b.service && a.version == b.version
  {
    ReleaseTag.TagInjective(a.project, a.service, a.version, b.project, b.service, b.version);
  }
}
