/**
 The shipyard: composed from stages and sequences by the project controller, stored as an object, and pushed upstream by
 the shipyard controller (keptn-operator/pkg/utils/shipyard.go:14-142, keptn-operator/pkg/utils/keptn.go:16-24 and
 64-84, keptn-operator/controllers/keptnprojectcontroller/keptnproject_controller.go:128-191,
 keptn-operator/controllers/keptnshipyardcontroller/keptnshipyard_controller.go:82-182).
 */
module Shipyard {
  import opened Wrappers

  const API_VERSION := "spec.keptn.sh/0.2.2"
  const KIND := "KeptnShipyard"

  /** A task sequence as Keptn knows it. */
  datatype Sequence = Sequence(name: string, tasks: string)

  /** Stored sequence and stage objects; a stage refers to sequences by their object names. */
  datatype KeptnSequence = KeptnSequence(name: string, sequence: Sequence)
  datatype KeptnStage = KeptnStage(name: string, project: string, refs: seq<string>)

  datatype Stage = Stage(name: string, sequences: seq<Sequence>)
  datatype Document = Document(apiVersion: string, kind: string, metadata: string, stages: seq<Stage>)

  // ---------- Composition ----------

  predicate IsFirst(available: seq<KeptnSequence>, ref: string, k: nat) {
    k < |available| && available[k].name == ref && forall m :: 0 <= m < k ==> available[m].name != ref
  }

  predicate Dangles(available: seq<KeptnSequence>, ref: string) {
    forall k :: 0 <= k < |available| ==> available[k].name != ref
  }

  /** `s` is the sequence of the first object with that name. */
  ghost predicate Resolves(available: seq<KeptnSequence>, ref: string, s: Sequence) {
    exists k: nat :: IsFirst(available, ref, k) && s == available[k].sequence
  }

  /** A stage under its own name with its references resolved in order. */
  ghost predicate StageOf(stage: KeptnStage, available: seq<KeptnSequence>, s: Stage) {
    && s.name == stage.name && |s.sequences| == |stage.refs|
    && forall i :: 0 <= i < |stage.refs| ==> Resolves(available, stage.refs[i], s.sequences[i])
  }

  predicate StageDangles(stage: KeptnStage, available: seq<KeptnSequence>) {
    exists i :: 0 <= i < |stage.refs| && Dangles(available, stage.refs[i])
  }

  lemma ResolvesOrDangles(available: seq<KeptnSequence>, ref: string, s: Sequence)
    requires Resolves(available, ref, s)
    ensures !Dangles(available, ref)
    ensures forall t :: Resolves(available, ref, t) ==> t == s
  {
    var k: nat :| IsFirst(available, ref, k) && s == available[k].sequence;
    forall t | Resolves(available, ref, t) ensures t == s {
      var m: nat :| IsFirst(available, ref, m) && t == available[m].sequence;
    }
  }

  /** `composeKeptnStage`: on an error, the references before the first dangling one have been resolved. */
  method ComposeStage(stage: KeptnStage, available: seq<KeptnSequence>) returns (composed: Stage, ok: bool)
    ensures ok <==> !StageDangles(stage, available)
    ensures ok ==> StageOf(stage, available, composed)
    ensures composed.name == stage.name && |composed.sequences| <= |stage.refs|
    ensures forall i :: 0 <= i < |composed.sequences| ==> Resolves(available, stage.refs[i], composed.sequences[i])
    ensures !ok ==> |composed.sequences| < |stage.refs| && Dangles(available, stage.refs[|composed.sequences|])
  {
    composed := Stage(stage.name, []);
    for j := 0 to |stage.refs|
      invariant composed.name == stage.name && |composed.sequences| == j
      invariant forall i :: 0 <= i < j ==> Resolves(available, stage.refs[i], composed.sequences[i])
      invariant forall i :: 0 <= i < j ==> !Dangles(available, stage.refs[i])
    {
      var found := false;
      for k := 0 to |available|
        invariant !found && composed.name == stage.name && |composed.sequences| == j
        invariant forall i :: 0 <= i < j ==> Resolves(available, stage.refs[i], composed.sequences[i])
        invariant forall m :: 0 <= m < k ==> available[m].name != stage.refs[j]
      {
        if available[k].name == stage.refs[j] {
          found := true;
          assert IsFirst(available, stage.refs[j], k) && !Dangles(available, stage.refs[j]);
          composed := composed.(sequences := composed.sequences + [available[k].sequence]);
          break;
        }
      }
      if !found {
        assert Dangles(available, stage.refs[j]);
        return composed, false;
      }
      assert !Dangles(available, stage.refs[j]);
    }
    ok := true;
  }

  /** The stages of a project, in the order in which they are listed. */
  function StagesOf(all: seq<KeptnStage>, project: string): seq<KeptnStage> {
    if all == [] then []
    else
      var front, last := all[..|all| - 1], all[|all| - 1];
      StagesOf(front, project) + if last.project == project then [last] else []
  }

  /** `getKeptnStages`, once the list has been read. */
  method GetStages(all: seq<KeptnStage>, project: string) returns (stages: seq<KeptnStage>)
    ensures stages == StagesOf(all, project)
  {
    stages := [];
    for i := 0 to |all|
      invariant stages == StagesOf(all[..i], project)
    {
      assert all[..i + 1][..i] == all[..i];
      if all[i].project == project {
        stages := stages + [all[i]];
      }
    }
    assert all[..|all|] == all;
  }

  lemma {:induction false} PrefixOfStages(all: seq<KeptnStage>, project: string, i: nat)
    requires i <= |all|
    ensures StagesOf(all[..i], project) <= StagesOf(all, project)
  {
    if i == |all| {
      assert all[..i] == all;
    } else {
      var front := all[..|all| - 1];
      PrefixOfStages(front, project, i);
      assert front[..i] == all[..i];
    }
  }

  /**
   Every stage of the project appears at the position given by the project's stages listed before it; by `SourceOf`
   nothing else appears.
   */
  lemma {:induction false} StagesInOrder(all: seq<KeptnStage>, project: string)
    ensures forall i :: 0 <= i < |all| && all[i].project == project ==>
      |StagesOf(all[..i], project)| < |StagesOf(all, project)| &&
      StagesOf(all, project)[|StagesOf(all[..i], project)|] == all[i]
  {
    forall i | 0 <= i < |all| && all[i].project == project
      ensures |StagesOf(all[..i], project)| < |StagesOf(all, project)|
      ensures StagesOf(all, project)[|StagesOf(all[..i], project)|] == all[i]
    {
      assert all[..i + 1][..i] == all[..i];
      PrefixOfStages(all, project, i + 1);
    }
  }

  /** Every position holds the stage of the project that has as many of the project's stages before it. */
  lemma {:induction false} SourceOf(all: seq<KeptnStage>, project: string, k: nat) returns (i: nat)
    requires k < |StagesOf(all, project)|
    ensures i < |all| && all[i].project == project && |StagesOf(all[..i], project)| == k
    ensures StagesOf(all, project)[k] == all[i]
    decreases |all|
  {
    i := |all| - 1;
    var front := all[..i];
    if k < |StagesOf(front, project)| {
      i := SourceOf(front, project, k);
      assert front[..i] == all[..i];
    }
  }

  /** The document lists the composed stages in order under the fixed version and kind. */
  ghost predicate Composes(stages: seq<KeptnStage>, available: seq<KeptnSequence>, d: Document) {
    && d.apiVersion == API_VERSION && d.kind == KIND && d.metadata == "" && |d.stages| == |stages|
    && forall i :: 0 <= i < |stages| ==> StageOf(stages[i], available, d.stages[i])
  }

  predicate AnyDangles(stages: seq<KeptnStage>, available: seq<KeptnSequence>) {
    exists i :: 0 <= i < |stages| && StageDangles(stages[i], available)
  }

  /** There is at most one composition. */
  lemma CompositionUnique(stages: seq<KeptnStage>, available: seq<KeptnSequence>, d: Document, e: Document)
    requires Composes(stages, available, d) && Composes(stages, available, e)
    ensures d == e
  {
    forall i | 0 <= i < |stages| ensures d.stages[i] == e.stages[i] {
      forall j | 0 <= j < |stages[i].refs| ensures d.stages[i].sequences[j] == e.stages[i].sequences[j] {
        ResolvesOrDangles(available, stages[i].refs[j], d.stages[i].sequences[j]);
      }
      assert d.stages[i].sequences == e.stages[i].sequences;
    }
    assert d.stages == e.stages;
  }

  /** The first object with that name, as a function. */
  function Resolved(available: seq<KeptnSequence>, ref: string): Option<Sequence> {
    if available == [] then None
    else if available[0].name == ref then Some(available[0].sequence)
    else Resolved(available[1..], ref)
  }

  function ResolvedAll(available: seq<KeptnSequence>, refs: seq<string>): Option<seq<Sequence>> {
    if refs == [] then Some([])
    else
      var first, rest := Resolved(available, refs[0]), ResolvedAll(available, refs[1..]);
      if first == None || rest == None then None else Some([first.value] + rest.value)
  }

  function StagesFrom(stages: seq<KeptnStage>, available: seq<KeptnSequence>): Option<seq<Stage>> {
    if stages == [] then Some([])
    else
      var first, rest := ResolvedAll(available, stages[0].refs), StagesFrom(stages[1..], available);
      if first == None || rest == None then None else Some([Stage(stages[0].name, first.value)] + rest.value)
  }

  /** The composition of a project, if no reference dangles. */
  function Composition(all: seq<KeptnStage>, available: seq<KeptnSequence>, project: string): Option<Document> {
    var stages := StagesFrom(StagesOf(all, project), available);
    if stages == None then None else Some(Document(API_VERSION, KIND, "", stages.value))
  }

  lemma {:induction false} ResolvedMeaning(available: seq<KeptnSequence>, ref: string)
    ensures Resolved(available, ref) == None <==> Dangles(available, ref)
    ensures Resolved(available, ref).Some? ==> Resolves(available, ref, Resolved(available, ref).value)
    decreases available
  {
    if available != [] {
      if available[0].name == ref {
        assert IsFirst(available, ref, 0);
      } else {
        ResolvedMeaning(available[1..], ref);
        if Resolved(available[1..], ref).Some? {
          var k: nat :| IsFirst(available[1..], ref, k) && Resolved(available, ref).value == available[1..][k].sequence;
          assert IsFirst(available, ref, k + 1);
        }
        assert forall k :: 0 < k < |available| ==> available[k] == available[1..][k - 1];
      }
    }
  }

  lemma {:induction false} ResolvedAllMeaning(available: seq<KeptnSequence>, refs: seq<string>)
    ensures ResolvedAll(available, refs) == None <==> exists i :: 0 <= i < |refs| && Dangles(available, refs[i])
    ensures ResolvedAll(available, refs).Some? ==>
      |ResolvedAll(available, refs).value| == |refs| &&
      forall i :: 0 <= i < |refs| ==> Resolves(available, refs[i], ResolvedAll(available, refs).value[i])
    decreases refs
  {
    if refs != [] {
      ResolvedMeaning(available, refs[0]);
      ResolvedAllMeaning(available, refs[1..]);
      assert forall i :: 0 < i < |refs| ==> refs[i] == refs[1..][i - 1];
      if ResolvedAll(available, refs[1..]) == None {
        var i :| 0 <= i < |refs[1..]| && Dangles(available, refs[1..][i]);
        assert Dangles(available, refs[i + 1]);
      }
    }
  }

  lemma {:induction false} StagesFromMeaning(stages: seq<KeptnStage>, available: seq<KeptnSequence>)
    ensures StagesFrom(stages, available) == None <==> AnyDangles(stages, available)
    ensures StagesFrom(stages, available).Some? ==>
      |StagesFrom(stages, available).value| == |stages| &&
      forall i :: 0 <= i < |stages| ==> StageOf(stages[i], available, StagesFrom(stages, available).value[i])
    decreases stages
  {
    if stages != [] {
      ResolvedAllMeaning(available, stages[0].refs);
      StagesFromMeaning(stages[1..], available);
      assert forall i :: 0 < i < |stages| ==> stages[i] == stages[1..][i - 1];
      if StagesFrom(stages[1..], available) == None {
        var i :| 0 <= i < |stages[1..]| && StageDangles(stages[1..][i], available);
        assert StageDangles(stages[i + 1], available);
      }
    }
  }

  /** Composition succeeds exactly when no reference of the project's stages dangles, and is then what was asked for. */
  lemma CompositionExactly(all: seq<KeptnStage>, available: seq<KeptnSequence>, project: string)
    ensures Composition(all, available, project) == None <==> AnyDangles(StagesOf(all, project), available)
    ensures Composition(all, available, project).Some? ==>
      Composes(StagesOf(all, project), available, Composition(all, available, project).value)
  {
    StagesFromMeaning(StagesOf(all, project), available);
  }

  /** A reference stands for the first sequence object of that name. */
  lemma FirstOfNameWins(available: seq<KeptnSequence>, ref: string, k: nat)
    requires k < |available| && available[k].name == ref && forall m :: 0 <= m < k ==> available[m].name != ref
    ensures Resolved(available, ref) == Some(available[k].sequence)
  {
    ResolvedMeaning(available, ref);
    var m: nat :| IsFirst(available, ref, m) && Resolved(available, ref).value == available[m].sequence;
  }

  /** The composed document names the stages of the project, each with the sequences of its references. */
  lemma ComposedDocument(all: seq<KeptnStage>, available: seq<KeptnSequence>, project: string)
    requires Composition(all, available, project).Some?
    ensures var d, stages := Composition(all, available, project).value, StagesOf(all, project);
      && d.apiVersion == "spec.keptn.sh/0.2.2" && d.kind == "KeptnShipyard" && d.metadata == ""
      && |d.stages| == |stages|
      && forall i :: 0 <= i < |stages| ==>
        && d.stages[i].name == stages[i].name && |d.stages[i].sequences| == |stages[i].refs|
        && forall j :: 0 <= j < |stages[i].refs| ==>
          Resolved(available, stages[i].refs[j]) == Some(d.stages[i].sequences[j])
  {
    var d, stages := Composition(all, available, project).value, StagesOf(all, project);
    CompositionExactly(all, available, project);
    forall i, j | 0 <= i < |stages| && 0 <= j < |stages[i].refs|
      ensures Resolved(available, stages[i].refs[j]) == Some(d.stages[i].sequences[j])
    {
      ResolvedExactly(available, stages[i].refs[j], d.stages[i].sequences[j]);
    }
  }

  lemma ResolvedExactly(available: seq<KeptnSequence>, ref: string, s: Sequence)
    requires Resolves(available, ref, s)
    ensures Resolved(available, ref) == Some(s)
  {
    var k: nat :| IsFirst(available, ref, k) && s == available[k].sequence;
    FirstOfNameWins(available, ref, k);
  }

  /** `composeShipyard`, once both lists have been read. */
  method ComposeShipyard(all: seq<KeptnStage>, available: seq<KeptnSequence>, project: string)
    returns (d: Document, ok: bool)
    ensures ok <==> !AnyDangles(StagesOf(all, project), available)
    ensures ok ==> Composes(StagesOf(all, project), available, d)
    ensures Composition(all, available, project) == if ok then Some(d) else None
  {
    d := Document(API_VERSION, KIND, "", []);
    var stages := GetStages(all, project);
    CompositionExactly(all, available, project);
    for j := 0 to |stages|
      invariant d.apiVersion == API_VERSION && d.kind == KIND && d.metadata == "" && |d.stages| == j
      invariant forall i :: 0 <= i < j ==> StageOf(stages[i], available, d.stages[i])
      invariant forall i :: 0 <= i < j ==> !StageDangles(stages[i], available)
    {
      var stage, composed := ComposeStage(stages[j], available);
      if !composed {
        return d, false;
      }
      d := d.(stages := d.stages + [stage]);
    }
    ok := true;
    CompositionUnique(stages, available, d, Composition(all, available, project).value);
  }

  // ---------- Does Keptn know the project? ----------

  datatype Check = Seen | Absent | Failed

  predicate Listed(projects: seq<string>, project: string) {
    exists i :: 0 <= i < |projects| && (project == "" || projects[i] == project)
  }

  lemma ListedNext(projects: seq<string>, i: nat, project: string)
    requires i < |projects|
    ensures Listed(projects[..i + 1], project) <==>
            Listed(projects[..i], project) || project == "" || projects[i] == project
  {
    var p := projects[i];
    assert projects[..i + 1] == projects[..i] + [p];
    if k :| 0 <= k < i && (project == "" || projects[..i][k] == project) {
      assert projects[..i + 1][k] == projects[..i][k];
    }
    assert projects[..i + 1][i] == p;
  }

  function CheckOf(projects: Option<seq<string>>, project: string): Check {
    if projects.Some? && Listed(projects.value, project) then Seen
    else if projects.Some? && project == "" then Absent
    else Failed
  }

  /** `CheckKeptnProjectExists`; `projects` is `None` when Keptn cannot be asked. */
  method CheckProject(projects: Option<seq<string>>, project: string) returns (known: bool, failed: bool)
    ensures CheckOf(projects, project) == if known then Seen else if failed then Failed else Absent
    ensures !(known && failed)
  {
    if projects == None {
      return false, true;
    }
    var filtered: seq<string> := [];
    for i := 0 to |projects.value|
      invariant filtered != [] <==> Listed(projects.value[..i], project)
    {
      var p := projects.value[i];
      ListedNext(projects.value, i, project);
      if project == "" || project == p {
        filtered := filtered + [p];
      }
    }
    assert projects.value[..|projects.value|] == projects.value;
    if filtered == [] {
      return false, project != "";
    }
    return true, false;
  }

  /** Keptn knows a named project if it lists it; a missing one is an error. Without a name any project will do. */
  lemma CheckMeaning(projects: Option<seq<string>>, project: string)
    ensures projects == None ==> CheckOf(projects, project) == Failed
    ensures projects.Some? && project != "" ==>
      CheckOf(projects, project) == if project in projects.value then Seen else Failed
    ensures projects.Some? && project == "" ==>
      CheckOf(projects, project) == if projects.value != [] then Seen else Absent
  {
    if projects.Some? && project != "" && project in projects.value {
      var i :| 0 <= i < |projects.value| && projects.value[i] == project;
      assert Listed(projects.value, project);
    }
    if projects.Some? && project == "" && projects.value != [] {
      assert Listed(projects.value, project) by { assert projects.value[0] == projects.value[0]; }
    }
  }

  // ---------- One run of each controller ----------

  datatype Spec = Spec(project: string, shipyard: Document)

  /** The structure hash covers the type as well as the content: a document and a whole spec never hash alike. */
  datatype Hash = OfSpec(spec: Spec) | OfDocument(document: Document)

  /** A stored shipyard object; its status is a subresource, which creating or updating the object leaves alone. */
  datatype Object = Object(spec: Spec, projectExists: bool, lastApplied: Option<Hash>)

  /** The version ConfigMap: not there, there with "none", or holding a hash. */
  datatype Recorded = Missing | Nothing | Hashed(hash: Hash)

  /** The shipyard.yaml at the head of the upstream branch. */
  datatype File = Yaml(document: Document) | Other(text: string)

  datatype World = World(project: string, stages: seq<KeptnStage>, sequences: seq<KeptnSequence>, flag: bool,
                         stored: Option<Object>, recorded: Recorded, upstream: File)

  datatype ProjectEnv = ProjectEnv(projects: Option<seq<string>>, statusWorks: bool, listsWork: bool, found: bool,
                                   createWorks: bool, readable: bool, updateWorks: bool)

  /** A push is refused, takes effect without its answer arriving, or is answered. */
  datatype Push = Refused | Lost | Answered

  datatype ShipyardEnv = ShipyardEnv(instanceKnown: bool, readable: bool, configReadable: bool, configCreateWorks: bool,
                                     projects: Option<seq<string>>, statusWorks: bool, push: Push, recordWorks: bool)

  function Want(w: World): Option<Spec> {
    var d := Composition(w.stages, w.sequences, w.project);
    if d == None then None else Some(Spec(w.project, d.value))
  }

  function WriteObject(w: World, spec: Spec, env: ProjectEnv): World {
    if w.stored == None || !env.found then
      if w.stored == None && env.createWorks then w.(stored := Some(Object(spec, false, None))) else w
    else if w.stored.value.lastApplied == Some(OfDocument(spec.shipyard)) then w
    else if env.readable && env.updateWorks then w.(stored := Some(w.stored.value.(spec := spec)))
    else w
  }

  /** The project controller from the existence check on, for an object that is not being deleted. */
  function ProjectStep(w: World, env: ProjectEnv): World {
    var seen := CheckOf(env.projects, w.project) == Seen;
    if seen != w.flag then if env.statusWorks then w.(flag := seen) else w
    else if !seen || !env.listsWork || Want(w) == None then w
    else WriteObject(w, Want(w).value, env)
  }

  function SetProjectExists(w: World, b: bool, works: bool): World
    requires w.stored.Some?
  {
    if works then w.(stored := Some(w.stored.value.(projectExists := b))) else w
  }

  function PushAndRecord(w: World, spec: Spec, env: ShipyardEnv): World {
    match env.push
    case Refused => w
    case Lost => w.(upstream := Yaml(spec.shipyard))
    case Answered =>
      w.(upstream := Yaml(spec.shipyard), recorded := if env.recordWorks then Hashed(OfSpec(spec)) else w.recorded)
  }

  /** Nothing is recorded for the stored spec, so the run goes on to the existence check. */
  predicate Behind(w: World, env: ShipyardEnv) {
    && env.instanceKnown && env.readable && w.stored.Some? && env.configReadable && w.recorded != Missing
    && w.recorded != Hashed(OfSpec(w.stored.value.spec))
  }

  predicate Pushes(w: World, env: ShipyardEnv) {
    Behind(w, env) && CheckOf(env.projects, w.stored.value.spec.project) == Seen && w.stored.value.projectExists
  }

  function ShipyardStep(w: World, env: ShipyardEnv): World {
    if env.instanceKnown && env.readable && w.stored.Some? && env.configReadable && w.recorded == Missing then
      if env.configCreateWorks then w.(recorded := Nothing) else w
    else if !Behind(w, env) then w
    else
      match CheckOf(env.projects, w.stored.value.spec.project)
      case Failed => w
      case Absent => SetProjectExists(w, false, env.statusWorks)
      case Seen =>
        if !w.stored.value.projectExists then SetProjectExists(w, true, env.statusWorks)
        else PushAndRecord(w, w.stored.value.spec, env)
  }

  class Operator {
    const project: string
    var stages: seq<KeptnStage>
    var sequences: seq<KeptnSequence>
    var flag: bool
    var stored: Option<Object>
    var recorded: Recorded
    var upstream: File

    constructor (w: World)
      ensures State() == w
    {
      project, stages, sequences, flag := w.project, w.stages, w.sequences, w.flag;
      stored, recorded, upstream := w.stored, w.recorded, w.upstream;
    }

    ghost function State(): World
      reads this
    {
      World(project, stages, sequences, flag, stored, recorded, upstream)
    }

    /** `UpdateShipyard`: `known` is the hash found in the status of the stored object. */
    method UpdateShipyard(spec: Spec, known: Option<Hash>, env: ProjectEnv)
      requires stored.Some? && env.found && known == stored.value.lastApplied
      modifies this`stored
      ensures State() == WriteObject(old(State()), spec, env)
    {
      if Some(OfDocument(spec.shipyard)) != known {
        if !env.readable || !env.updateWorks {
          return;
        }
        stored := Some(stored.value.(spec := spec));
      }
    }

    /** The project controller's `Reconcile` from the existence check on. */
    method ReconcileProject(env: ProjectEnv)
      modifies this
      ensures State() == ProjectStep(old(State()), env)
    {
      var known, _ := CheckProject(env.projects, project);
      if !known {
        if flag && env.statusWorks {
          flag := false;
        }
        return;
      } else if !flag {
        if env.statusWorks {
          flag := true;
        }
        return;
      }
      if !env.listsWork {
        return;
      }
      var d, ok := ComposeShipyard(stages, sequences, project);
      if !ok {
        return;
      }
      var spec := Spec(project, d);
      if stored == None || !env.found {
        if stored == None && env.createWorks {
          stored := Some(Object(spec, false, None));
        }
        return;
      }
      UpdateShipyard(spec, stored.value.lastApplied, env);
    }

    method UpdateStatus(b: bool, works: bool)
      requires stored.Some?
      modifies this`stored
      ensures State() == SetProjectExists(old(State()), b, works)
    {
      if works {
        stored := Some(stored.value.(projectExists := b));
      }
    }

    /** The shipyard controller's `Reconcile`. */
    method ReconcileShipyard(env: ShipyardEnv)
      modifies this
      ensures State() == ShipyardStep(old(State()), env)
    {
      if !env.instanceKnown || !env.readable || stored == None {
        return;
      }
      if !env.configReadable {
        return;
      }
      if recorded == Missing {
        if env.configCreateWorks {
          recorded := Nothing;
        }
        return;
      }
      var spec := stored.value.spec;
      if recorded == Hashed(OfSpec(spec)) {
        return;
      }
      var known, failed := CheckProject(env.projects, spec.project);
      if failed {
        return;
      }
      if !known {
        UpdateStatus(false, env.statusWorks);
        return;
      } else if !stored.value.projectExists {
        UpdateStatus(true, env.statusWorks);
        return;
      }
      if env.push == Refused {
        return;
      }
      upstream := Yaml(spec.shipyard);
      if env.push == Lost {
        return;
      }
      if env.recordWorks {
        recorded := Hashed(OfSpec(spec));
      }
    }
  }

  // ---------- Whole runs ----------

  datatype Action =
    | RunProject(penv: ProjectEnv)
    | RunShipyard(senv: ShipyardEnv)
    | EditStages(stages: seq<KeptnStage>)
    | EditSequences(sequences: seq<KeptnSequence>)
    | EditObject(stored: Option<Object>)
    | DropConfig

  function Act(w: World, a: Action): World {
    match a
    case RunProject(env) => ProjectStep(w, env)
    case RunShipyard(env) => ShipyardStep(w, env)
    case EditStages(stages) => w.(stages := stages)
    case EditSequences(sequences) => w.(sequences := sequences)
    case EditObject(stored) => w.(stored := stored)
    case DropConfig => w.(recorded := Missing)
  }

  function Run(w: World, acts: seq<Action>): World
    decreases acts
  {
    if acts == [] then w else Run(Act(w, acts[0]), acts[1..])
  }

  /** A recorded hash is that of the spec whose document is upstream. */
  predicate Matches(w: World) {
    w.recorded.Hashed? ==> w.recorded.hash.OfSpec? && w.upstream == Yaml(w.recorded.hash.spec.shipyard)
  }

  /** A push that takes effect but is not recorded. */
  predicate StrayPush(w: World, a: Action) {
    a.RunShipyard? && Pushes(w, a.senv) && (a.senv.push == Lost || (a.senv.push == Answered && !a.senv.recordWorks))
  }

  /** One action breaks the match exactly if it is a stray push of another document than the recorded one. */
  lemma MatchesExactly(w: World, a: Action)
    requires Matches(w)
    ensures Matches(Act(w, a)) <==>
      !(StrayPush(w, a) && w.recorded.Hashed? && w.stored.value.spec.shipyard != w.recorded.hash.spec.shipyard)
  {}

  predicate NoStrayPush(w: World, acts: seq<Action>)
    decreases acts
  {
    acts != [] ==> !StrayPush(w, acts[0]) && NoStrayPush(Act(w, acts[0]), acts[1..])
  }

  /** If no record ever fails after a push, a recorded hash always matches the last pushed shipyard. */
  lemma {:induction false} RecordedMatchesPushed(w: World, acts: seq<Action>)
    requires Matches(w) && NoStrayPush(w, acts)
    ensures Matches(Run(w, acts))
    decreases acts
  {
    if acts != [] {
      MatchesExactly(w, acts[0]);
      RecordedMatchesPushed(Act(w, acts[0]), acts[1..]);
    }
  }

  /**
   The shipyard object's flag never falls for a named project, whatever is run: a missing project is an error there, not
   an absence.
   */
  lemma FlagNeverFalls(w: World, env: ShipyardEnv)
    requires w.stored.Some? && w.stored.value.projectExists && w.stored.value.spec.project != ""
    ensures ShipyardStep(w, env).stored == w.stored
  {}

  // ---------- What one run does, whatever fails ----------

  /** The project's flag is what the last run saw whose status could be written; a run that changes it does no more. */
  lemma ProjectFlagFollows(w: World, env: ProjectEnv)
    ensures var r := ProjectStep(w, env);
      && r.flag == (if env.statusWorks then CheckOf(env.projects, w.project) == Seen else w.flag)
      && (r.flag != w.flag ==> r == w.(flag := r.flag))
  {}

  /** The shipyard object is written only by a run that sees the project, as the flag says, and only as composed. */
  lemma ObjectWrittenExactly(w: World, env: ProjectEnv)
    ensures var r := ProjectStep(w, env);
      var due := CheckOf(env.projects, w.project) == Seen && w.flag && env.listsWork && Want(w).Some?;
      && (w.stored == None ==>
            r.stored == if due && env.createWorks then Some(Object(Want(w).value, false, None)) else None)
      && (w.stored.Some? && !(w.stored.value.lastApplied.Some? && w.stored.value.lastApplied.value.OfDocument?) ==>
            r.stored == if due && env.found && env.readable && env.updateWorks
                        then Some(w.stored.value.(spec := Want(w).value)) else w.stored)
      && r.recorded == w.recorded && r.upstream == w.upstream
  {}

  /** The upstream file changes only to the stored document, when its project is there and the push is not refused. */
  lemma PushedExactly(w: World, env: ShipyardEnv)
    ensures var r := ShipyardStep(w, env);
      var known := env.instanceKnown && env.readable && env.configReadable && w.stored.Some?;
      && (r.upstream != w.upstream ==>
            && known && w.stored.value.projectExists && env.push != Refused
            && CheckOf(env.projects, w.stored.value.spec.project) == Seen
            && r.upstream == Yaml(w.stored.value.spec.shipyard) && r.stored == w.stored)
      && (r.recorded != w.recorded ==>
            known &&
            if w.recorded == Missing then r.recorded == Nothing && env.configCreateWorks && r.upstream == w.upstream
            else
              && r.recorded == Hashed(OfSpec(w.stored.value.spec)) && env.push == Answered && env.recordWorks
              && r.upstream == Yaml(w.stored.value.spec.shipyard))
  {}

  /** The object's flag follows the project too, by a run that does nothing else and finds something to push. */
  lemma ObjectFlagFollows(w: World, env: ShipyardEnv)
    ensures var r := ShipyardStep(w, env);
      && (r.stored != w.stored ==>
            && w.stored.Some? && env.statusWorks && r == w.(stored := r.stored)
            && r.stored == Some(w.stored.value.(projectExists := !w.stored.value.projectExists))
            && (CheckOf(env.projects, w.stored.value.spec.project) == Seen <==> !w.stored.value.projectExists))
      && (Behind(w, env) && env.statusWorks && CheckOf(env.projects, w.stored.value.spec.project) == Seen ==>
            r.stored.Some? && r.stored.value.projectExists)
      && (Behind(w, env) && env.statusWorks && CheckOf(env.projects, w.stored.value.spec.project) == Absent ==>
            r.stored.Some? && !r.stored.value.projectExists)
  {}

  // ---------- Progress once edits stop ----------

  predicate GoodProject(w: World, env: ProjectEnv) {
    && CheckOf(env.projects, w.project) == Seen && env.statusWorks && env.listsWork && env.found && env.createWorks
    && env.readable && env.updateWorks
  }

  predicate GoodShipyard(w: World, env: ShipyardEnv) {
    && env.instanceKnown && env.readable && env.configReadable && env.configCreateWorks
    && CheckOf(env.projects, w.project) == Seen && env.statusWorks && env.push == Answered && env.recordWorks
  }

  predicate Good(w: World, a: Action) {
    (a.RunProject? && GoodProject(w, a.penv)) || (a.RunShipyard? && GoodShipyard(w, a.senv))
  }

  predicate AllGood(w: World, acts: seq<Action>) {
    forall i :: 0 <= i < |acts| ==> Good(w, acts[i])
  }

  function ProjectRuns(acts: seq<Action>): nat
    decreases acts
  {
    if acts == [] then 0 else ProjectRuns(acts[1..]) + if acts[0].RunProject? then 1 else 0
  }

  function ShipyardRuns(acts: seq<Action>): nat
    decreases acts
  {
    if acts == [] then 0 else ShipyardRuns(acts[1..]) + if acts[0].RunShipyard? then 1 else 0
  }

  /**
   What good runs start from: a composition exists, and the stored object is the project's and carries no document hash.
   */
  predicate Sound(w: World) {
    && Want(w).Some?
    && (w.stored.Some? ==> w.stored.value.spec.project == w.project &&
                           (w.stored.value.lastApplied.Some? ==> w.stored.value.lastApplied.value.OfSpec?))
  }

  /** A hash recorded for the wanted spec was recorded for what is upstream. */
  predicate Consistent(w: World) {
    Want(w).Some? && w.recorded == Hashed(OfSpec(Want(w).value)) ==> w.upstream == Yaml(Want(w).value.shipyard)
  }

  function ProjectDistance(w: World): nat {
    (if w.flag then 0 else 1) + if w.stored.Some? && Want(w) == Some(w.stored.value.spec) then 0 else 1
  }

  function ShipyardDistance(w: World): nat {
    if w.stored == None then 3
    else if w.recorded == Hashed(OfSpec(w.stored.value.spec)) then 0
    else (if w.recorded == Missing then 1 else 0) + (if w.stored.value.projectExists then 0 else 1) + 1
  }

  function Less(n: nat): nat {
    if n == 0 then 0 else n - 1
  }

  lemma GoodProjectRun(w: World, env: ProjectEnv)
    requires Sound(w) && GoodProject(w, env)
    ensures var r := ProjectStep(w, env);
      Sound(r) && Want(r) == Want(w) && ProjectDistance(r) == Less(ProjectDistance(w))
      && r.recorded == w.recorded && r.upstream == w.upstream && r.project == w.project
    ensures ProjectDistance(w) == 0 ==> ProjectStep(w, env) == w
  {}

  lemma GoodShipyardRun(w: World, env: ShipyardEnv)
    requires Sound(w) && GoodShipyard(w, env)
    ensures var r := ShipyardStep(w, env);
      Sound(r) && Want(r) == Want(w) && ProjectDistance(r) == ProjectDistance(w)
      && (w.stored.Some? ==> ShipyardDistance(r) == Less(ShipyardDistance(w))) && r.project == w.project
    ensures ShipyardDistance(w) == 0 ==> ShipyardStep(w, env) == w
  {
    ShipyardStepKeeps(w, env);
    ShipyardStepAdvances(w, env);
  }

  /** What a shipyard run leaves alone: everything but the object's flag, the record and the upstream file. */
  predicate SameInputs(w: World, r: World) {
    && r.project == w.project && r.stages == w.stages && r.sequences == w.sequences && r.flag == w.flag
    && (r.stored == None <==> w.stored == None)
    && (w.stored.Some? ==> r.stored == Some(w.stored.value.(projectExists := r.stored.value.projectExists)))
  }

  lemma ShipyardStepKeeps(w: World, env: ShipyardEnv)
    requires Sound(w)
    ensures var r := ShipyardStep(w, env);
      Sound(r) && Want(r) == Want(w) && ProjectDistance(r) == ProjectDistance(w) && r.project == w.project
  {
    ShipyardStepInputs(w, env);
    SameInputsSame(w, ShipyardStep(w, env));
  }

  lemma ShipyardStepInputs(w: World, env: ShipyardEnv)
    ensures SameInputs(w, ShipyardStep(w, env))
  {}

  lemma SameInputsSame(w: World, r: World)
    requires Sound(w) && SameInputs(w, r)
    ensures Sound(r) && Want(r) == Want(w) && ProjectDistance(r) == ProjectDistance(w) && r.project == w.project
  {}

  lemma ShipyardStepAdvances(w: World, env: ShipyardEnv)
    requires GoodShipyard(w, env) && (w.stored.Some? ==> w.stored.value.spec.project == w.project)
    ensures var r := ShipyardStep(w, env);
      w.stored.Some? ==> ShipyardDistance(r) == Less(ShipyardDistance(w))
    ensures ShipyardDistance(w) == 0 ==> ShipyardStep(w, env) == w
  {}

  /** A good run records what it pushes. */
  lemma GoodShipyardConsistent(w: World, env: ShipyardEnv)
    requires Sound(w) && GoodShipyard(w, env) && Consistent(w)
    ensures Consistent(ShipyardStep(w, env))
  {}

  /** The object is what the stages compose to, it is recorded as pushed, and it is upstream. */
  predicate Current(w: World) {
    Want(w).Some? && ProjectDistance(w) == 0 && ShipyardDistance(w) == 0 && w.upstream == Yaml(Want(w).value.shipyard)
  }

  /** `p` project runs followed by `s` shipyard runs, with any other good runs in between, are enough. */
  lemma {:induction false} ShipyardRunsSuffice(w: World, acts: seq<Action>)
    requires Sound(w) && Consistent(w) && AllGood(w, acts)
    requires ProjectDistance(w) == 0 && ShipyardRuns(acts) >= ShipyardDistance(w)
    ensures Want(Run(w, acts)) == Want(w) && Current(Run(w, acts))
    decreases acts
  {
    if acts != [] {
      var r := Act(w, acts[0]);
      if acts[0].RunProject? { GoodProjectRun(w, acts[0].penv); } else { GoodShipyardRun(w, acts[0].senv); }
      if acts[0].RunShipyard? { GoodShipyardConsistent(w, acts[0].senv); }
      assert AllGood(r, acts[1..]) by { GoodStays(w, r, acts); }
      ShipyardRunsSuffice(r, acts[1..]);
    }
  }

  lemma GoodStays(w: World, r: World, acts: seq<Action>)
    requires AllGood(w, acts) && acts != [] && r.project == w.project
    ensures AllGood(r, acts[1..])
  {
    forall i | 0 <= i < |acts[1..]| ensures Good(r, acts[1..][i]) {
      assert Good(w, acts[i + 1]);
    }
  }

  /**
   Once stage and sequence edits stop, good runs in any order bring the upstream file to the composition: enough project
   runs (at most two), then three shipyard runs.
   */
  lemma {:induction false} Converges(w: World, acts: seq<Action>, k: nat)
    requires Sound(w) && Consistent(w) && AllGood(w, acts) && k <= |acts|
    requires ProjectRuns(acts[..k]) >= ProjectDistance(w) && ShipyardRuns(acts[k..]) >= 3
    ensures Want(Run(w, acts)) == Want(w) && Current(Run(w, acts)) && ProjectDistance(w) <= 2
    decreases acts
  {
    if k == 0 {
      assert acts[0..] == acts;
      ShipyardRunsSuffice(w, acts);
    } else {
      var r := Act(w, acts[0]);
      if acts[0].RunProject? { GoodProjectRun(w, acts[0].penv); } else { GoodShipyardRun(w, acts[0].senv); }
      if acts[0].RunShipyard? { GoodShipyardConsistent(w, acts[0].senv); }
      GoodStays(w, r, acts);
      assert acts[1..][..k - 1] == acts[..k][1..] && acts[1..][k - 1..] == acts[k..];
      Converges(r, acts[1..], k - 1);
    }
  }

  predicate NoObjectEdit(acts: seq<Action>) {
    forall i :: 0 <= i < |acts| ==> !acts[i].EditObject?
  }

  /** The stored object is the project's own: nobody but the project controller writes it. */
  predicate OwnObject(w: World) {
    w.stored.Some? ==>
      w.stored.value.spec.project == w.project &&
      (w.stored.value.lastApplied.Some? ==> w.stored.value.lastApplied.value.OfSpec?)
  }

  lemma {:induction false} OwnObjectStays(w: World, acts: seq<Action>)
    requires OwnObject(w) && NoObjectEdit(acts)
    ensures OwnObject(Run(w, acts))
    decreases acts
  {
    if acts != [] {
      assert !acts[0].EditObject?;
      NoObjectEditRest(acts);
      OwnObjectStays(Act(w, acts[0]), acts[1..]);
    }
  }

  lemma NoObjectEditRest(acts: seq<Action>)
    requires NoObjectEdit(acts) && acts != []
    ensures NoObjectEdit(acts[1..])
  {
    forall i | 0 <= i < |acts[1..]| ensures !acts[1..][i].EditObject? { assert !acts[i + 1].EditObject?; }
  }

  /**
   After any run of both controllers, with edits of stages and sequences and failing calls but no stray push and no edit
   of the object: once edits stop at a state that composes, good runs bring the upstream file to the composition.
   */
  lemma ConvergesAfterAnyRun(w: World, before: seq<Action>, acts: seq<Action>, k: nat)
    requires OwnObject(w) && Matches(w) && NoObjectEdit(before) && NoStrayPush(w, before)
    requires Want(Run(w, before)).Some? && AllGood(Run(w, before), acts) && k <= |acts|
    requires ProjectRuns(acts[..k]) >= 2 && ShipyardRuns(acts[k..]) >= 3
    ensures var r := Run(w, before);
      Want(Run(r, acts)) == Want(r) && Current(Run(r, acts))
  {
    var r := Run(w, before);
    OwnObjectStays(w, before);
    RecordedMatchesPushed(w, before);
    assert Sound(r) && Consistent(r) && ProjectDistance(r) <= 2;
    Converges(r, acts, k);
  }

  /** From then on good runs change nothing. */
  lemma {:induction false} CurrentStays(w: World, acts: seq<Action>)
    requires Sound(w) && Current(w) && AllGood(w, acts)
    ensures Run(w, acts) == w
    decreases acts
  {
    if acts != [] {
      if acts[0].RunProject? { GoodProjectRun(w, acts[0].penv); } else { GoodShipyardRun(w, acts[0].senv); }
      GoodStays(w, w, acts);
      CurrentStays(w, acts[1..]);
    }
  }

  /**
   The hash `UpdateShipyard` compares with is never that of a document, so after any runs and edits of stages and
   sequences the comparison suppresses no update: once it can be written, the stored spec is the current composition.
   */
  lemma {:induction false} UpdateNeverSuppressed(w: World, acts: seq<Action>, env: ProjectEnv)
    requires w.stored.Some? && w.stored.value.lastApplied.Some? ==> w.stored.value.lastApplied.value.OfSpec?
    requires NoObjectEdit(acts) && GoodProject(w, env) && Run(w, acts).flag && Want(Run(w, acts)).Some?
    ensures var r := ProjectStep(Run(w, acts), env);
      r.stored.Some? && Some(r.stored.value.spec) == Want(Run(w, acts))
    decreases acts
  {
    if acts != [] {
      var r := Act(w, acts[0]);
      assert !acts[0].EditObject? && r.project == w.project;
      NoObjectEditRest(acts);
      UpdateNeverSuppressed(r, acts[1..], env);
    }
  }

  /** While a reference dangles, the stored object is not touched. */
  lemma DanglingFreezes(w: World, env: ProjectEnv)
    requires AnyDangles(StagesOf(w.stages, w.project), w.sequences)
    ensures ProjectStep(w, env).stored == w.stored
  {
    CompositionExactly(w.stages, w.sequences, w.project);
  }

  /**
   A stray push can be lost for good: the spec is changed and pushed but not recorded, the change is taken back, and the
   recorded hash then hides that the upstream file is the other document; no good run repairs it.
   */
  lemma StrayPushCanStick(w: World, other: Document, env: ShipyardEnv, acts: seq<Action>)
    requires Sound(w) && Current(w) && w.stored.value.projectExists && other != Want(w).value.shipyard
    requires GoodShipyard(w, env) && AllGood(w, acts)
    ensures var edit := EditObject(Some(w.stored.value.(spec := Spec(w.project, other))));
      var push := RunShipyard(env.(recordWorks := false));
      var back := EditObject(w.stored);
      Run(w, [edit, push, back] + acts) == w.(upstream := Yaml(other))
  {
    var edit := EditObject(Some(w.stored.value.(spec := Spec(w.project, other))));
    var push := RunShipyard(env.(recordWorks := false));
    var back := EditObject(w.stored);
    var r := w.(upstream := Yaml(other));
    var all := [edit, push, back] + acts;
    assert all[1..] == [push, back] + acts;
    assert all[1..][1..] == [back] + acts;
    assert all[1..][1..][1..] == acts;
    assert Act(Act(Act(w, edit), push), back) == r;
    assert Run(w, all) == Run(Act(w, edit), [push, back] + acts) == Run(Act(Act(w, edit), push), [back] + acts);
    StuckStays(r, acts);
  }

  lemma {:induction false} StuckStays(w: World, acts: seq<Action>)
    requires Sound(w) && ProjectDistance(w) == 0 && ShipyardDistance(w) == 0 && AllGood(w, acts)
    ensures Run(w, acts) == w
    decreases acts
  {
    if acts != [] {
      if acts[0].RunProject? { GoodProjectRun(w, acts[0].penv); } else { GoodShipyardRun(w, acts[0].senv); }
      GoodStays(w, w, acts);
      StuckStays(w, acts[1..]);
    }
  }

  /**
   The condition beside it: once the object is the composition, three good shipyard runs bring it upstream if and only
   if no hash of it was recorded for another upstream file.
   */
  lemma CurrentExactly(w: World, acts: seq<Action>)
    requires Sound(w) && ProjectDistance(w) == 0 && AllGood(w, acts) && ShipyardRuns(acts) >= 3
    ensures Current(Run(w, acts)) <==> Consistent(w)
  {
    if Consistent(w) {
      ShipyardRunsSuffice(w, acts);
    } else {
      StuckStays(w, acts);
    }
  }

  /**
   From any sound state: enough good runs end at the composition if and only if no such hash is recorded at the moment
   when the object has become the composition.
   */
  lemma {:induction false} CurrentExactlyFrom(w: World, acts: seq<Action>, k: nat)
    requires Sound(w) && AllGood(w, acts) && k <= |acts|
    requires ProjectRuns(acts[..k]) >= ProjectDistance(w) && ShipyardRuns(acts[k..]) >= 3
    ensures Current(Run(w, acts)) <==> Consistent(Run(w, acts[..k]))
    decreases acts
  {
    if k == 0 {
      assert acts[0..] == acts && acts[..0] == [];
      CurrentExactly(w, acts);
    } else {
      var r := Act(w, acts[0]);
      if acts[0].RunProject? { GoodProjectRun(w, acts[0].penv); } else { GoodShipyardRun(w, acts[0].senv); }
      GoodStays(w, r, acts);
      assert acts[1..][..k - 1] == acts[..k][1..] && acts[1..][k - 1..] == acts[k..];
      CurrentExactlyFrom(r, acts[1..], k - 1);
    }
  }
}
