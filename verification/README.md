# Keptn GitOps: verified model

A Dafny model of the release path of the Keptn GitOps operators and of the controllers around it. A GitOps operator
applies the manifests of a commit and delivers service artifacts to an upstream repository under a release tag; the
Keptn operator triggers deployments, executions and shipyards; a promotion service puts a tagged release on a stage
branch. `dafny verify dfyconfig.toml` checks everything.

How the modules relate to the program:

* `HelmValues` is the algebra of `merge` on value trees; `HelmValuesHeap` is the same code on a heap of map nodes with
  loops over sets of remaining keys, proved against it. Top-level keys obey another law than nested keys, because
  `Manipulate` drops what `merge` returns.
* `FileTree` is a file system as a map from paths to files, directories and symbolic links, with the copy code;
  `GitClient` is a repository with its upstream copy and the publication protocol. `Delivery` copies one service,
  `DeliveryLog` is the visits of a run and how they are decided, `DeliveryRun` is `composeData` over all services, and
  `DeliveryOrders` compares the orders in which it may visit them.
* `ServicePath`, `Overlay`, `Promotion`, `Placeholder` and `StageUpdate` are the promotion service: where a walked path
  goes, the walk that moves files, the two moves, filling in the version, and the whole update of a stage branch.
  `ReleaseTag`, `ReleaseClone` and `ReleaseFlow` join delivery and promotion, `ReleaseContents` says path by path what
  comes of it, and `PromotionHandler` is the event handler with its retries.
* `GitOpsReconcile` is the reconcile loop of the GitOps operator, one generic pair of functions for all kinds, and
  `GitOpsReconciler` its program; `GitOpsManifests` ties it to the lists of a commit, `GitOpsDelivery` says which of its
  commits are delivered, and `CommitDelivery` joins it with the delivery runs.
* `ServiceDeployments`, `ScheduledExecutions`, `Shipyard` and `ProjectFinalizer` are the controllers of the Keptn
  operator, each a guarded step over stored state and an environment that may change between steps. `ProjectRuns` and
  `ProjectCalm` hold the statements about runs of the project controller, `ProjectReconciler` its program.

Code that changes state is a class or a method with loops, proved against a function or relation on values; the
statements about whole runs are lemmas about that function. A file system, git client or cluster has a field
`reliable`: without it every call may fail for no reason, with it the exact condition of success is stated. Loops over
Go maps visit a set of remaining keys in any order; the services of a delivery come in a given order, which may be any.

Assumptions. Hashes are values of their own (`HashOf`, `OfSpec`, `OfDocument`), so equal hashes mean equal and equally
typed contents. YAML is a pair of functions with `parse(marshal(v)) == v`. A fresh clone holds the files of its commit
and only the directories they need. For the project controller the cache may lag behind the stored object but never goes
back, one run per object is in progress at a time, and users do not take the controller's finalizer off. In the other
controllers a run is one step and reads the stored state.

What the proofs show the code does and a reader might not expect:

* `serviceTagExists` is never reset, so a service is published with the flag of those before it. With nothing else in
  the way, a run fails if and only if a new tag comes after a replaced one (an annotated one that may be overwritten) or
  a lightweight tag does not, which depends on the order in which Go ranges over a map (`DeliveryOrders.WorksExactly`,
  `EveryOrderExactly`, `NewAfterReplaced`).
* A tag that may not be overwritten is safe only if it is annotated and tags can be listed: a run that goes through
  moves a lightweight one (`DeliveryOrders.ProtectedMovesExactly`, `LightweightMoves`). `DeliveryRun.TagMovesExactly`
  says exactly which tags a run moves, also one that stops or cannot list tags.
* A commit is recorded although its delivery failed, and then never delivered
  (`GitOpsDelivery.RecordedUndeliveredExactly`, `CommitDelivery.RecordedUndeliveredByServices`).
* A stage whose `Stat` fails is taken for a stage without data and published as empty (`Delivery.DeliverFiles`).
* Objects edited by hand keep their edit as long as their hash is the manifest's
  (`GitOpsReconcile.DriftRepairedExactly`).
* A deployment context that cannot be read leads to an event that carries no context, also for a deployment that has
  nothing to send (`ServiceDeployments.UnreadableSendsBare`, `UnreadableSplits`). When the answer to the first event of
  a release is lost as it is written, the next event carries none either (`LostWriteSplits`). These and a dropped
  context are the only ways in which one release gets two contexts from a Keptn that echoes what it is supplied
  (`ServiceDeployments.OneContextPerRelease`).
* A scheduled execution may run twice (`ScheduledExecutions.SecondEvent`), and one whose start time is moved never again
  if no run sees the new time ahead (`RescheduledExactly`).
* `UpdateShipyard` compares the hash of a document with that of a whole spec, so the comparison never
  suppresses an update (`Shipyard.UpdateNeverSuppressed`); a push that is not recorded can stay wrong for good
  (`Shipyard.StrayPushCanStick`; exactly when: `Shipyard.CurrentExactly`); and the shipyard's project flag is never
  taken back (`Shipyard.FlagNeverFalls`).
* A retry of the stage update that succeeds ends the handler without a finished event
  (`PromotionHandler.AnsweredExactly`).
* A refused deletion in Keptn counts as done (`ProjectRuns.RefusalOrphans`), and a create that was given up may take
  effect after the deletion (`ProjectRuns.LateCreateOrphans`); these are the only ways to leave a project behind
  (`ProjectRuns.OrphanedExactly`).
* Service names that occur in the clone directory's path, versions with dashes and versions that bridge the placeholder
  are each shown by a counterexample with the exact condition beside it (`ServicePath.DestinationExactly`,
  `ReleaseTag.UnmistakableExactly`, `Placeholder.CleanExactlyWhenNoBridge`).

## Model

| member | source | states |
|---|---|---|
| `HelmValues.ScalarSurvives` | promotion-service/pkg/utils/githandler.go:346-373 | a scalar of the first tree is found unchanged at its path after `merge`, whatever the second tree holds there |
| `HelmValues.MergeMeetsAtEveryPath` | promotion-service/pkg/utils/githandler.go:346-373 | at every path both trees have, lists are appended in order, null gives way to a map, maps join their keys and anything else of the first tree stays; a path only the first tree has is unchanged |
| `HelmValues.BaseArrives` | promotion-service/pkg/utils/githandler.go:359-370 | a value only the second tree has arrives unchanged if and only if the first tree holds no scalar or list on the way; otherwise the path stays undefined |
| `HelmValues.NothingInvented` | promotion-service/pkg/utils/githandler.go:359-365 | a path neither tree defines is not defined by the merge |
| `HelmValues.AbsorbsIsFixpoint` | promotion-service/pkg/utils/githandler.go:346-373 | merging changes nothing if and only if the second tree has nothing the first would take |
| `HelmValues.MergeTwiceExactly` | promotion-service/pkg/utils/githandler.go:346-373 | merging the same tree a second time changes nothing if and only if no list meets a non-empty list and no adopted subtree holds a non-empty list |
| `HelmValues.MergeTwice` | promotion-service/pkg/utils/githandler.go:346-373 | a base without non-empty lists can be merged twice without effect |
| `HelmValues.MergeAssociative` | promotion-service/pkg/utils/githandler.go:346-373 | for any three trees, merging is associative if and only if no path has one of the clashing triples of kinds (map, list or scalar, map with something to add), (list, non-list, non-empty list), (null, list or scalar, map) |
| `HelmValues.TopIsMergeExactly` | promotion-service/pkg/utils/githandler.go:335-343 | `MergeValues` equals the pure merge of stage over base if and only if no shared top-level key pairs a stage list with a non-empty base list or a stage null with a base map |
| `HelmValues.MergeTop` | promotion-service/pkg/utils/githandler.go:335-343 | the merged values have exactly the top-level keys of either file |
| `HelmValues.TopValues` | promotion-service/pkg/utils/githandler.go:335-343 | key by key: of two maps the merge, of any other two values the stage's, two lists and null against a map included, and a value that only one file has as it is |
| `HelmValues.StageScalarSurvives` | promotion-service/pkg/utils/githandler.go:302-307 | a stage scalar survives `MergeValues` at every path |
| `HelmValues.MissingFileIsEmpty` | promotion-service/pkg/utils/githandler.go:280-308 | `MergeValues` fails exactly when both files are missing, and one missing file acts as the empty map |
| `HelmValuesHeap.MergeLayoutAbs` | promotion-service/pkg/utils/githandler.go:346-373 | the heap layout left by in-place merging abstracts to the pure merge |
| `HelmValuesHeap.MergeLayoutTreeShaped` | promotion-service/pkg/utils/githandler.go:346-373 | merging disjoint trees in place leaves a tree: no map node is reachable twice although subtrees of the second tree are shared into the result |
| `HelmValuesHeap.Merge'` | promotion-service/pkg/utils/githandler.go:346-373 | on disjoint tree-shaped heaps, in-place `merge` returns the pure merge for every order of visiting the keys, writes only nodes of its first argument and leaves the second as it was |
| `HelmValuesHeap.MergeEntries` | promotion-service/pkg/utils/githandler.go:358-365 | the loop over the entries of the second map, in any order, with its updates in place |
| `HelmValuesHeap.ManipulatedAbs` | promotion-service/pkg/utils/githandler.go:335-343 | the base map after `Manipulate` abstracts to the top-level law, which differs from the nested one because the result of `merge` is dropped |
| `HelmValuesHeap.ManipulateKey` | promotion-service/pkg/utils/githandler.go:340-341 | one top-level key: merge in place, drop the result, store the stage value |
| `HelmValuesHeap.Manipulate` | promotion-service/pkg/utils/githandler.go:335-344 | for every order of the stage keys the base map ends as the top-level merge; of the stage only the nodes below its root are written |
| `HelmValuesHeap.MergeValues'` | promotion-service/pkg/utils/githandler.go:280-308 | the heap version of `MergeValues` returns what the value version says, including the error |
| `Placeholder.NoPlaceholderLeft` | promotion-service/pkg/utils/githandler.go:265-278 | a version that cannot meet its surroundings in a new placeholder leaves none behind, and a second replacement is the identity |
| `Placeholder.BridgeLeavesPlaceholder` | promotion-service/pkg/utils/githandler.go:265-278 | for every version that can bridge, some file keeps a placeholder after the replacement |
| `Placeholder.CleanExactlyWhenNoBridge` | promotion-service/pkg/utils/githandler.go:265-278 | every file comes out without a placeholder if and only if the version does not bridge |
| `Placeholder.PlainVersionBridgesNothing` | promotion-service/pkg/utils/githandler.go:144 | a version without braces and with some character not in the placeholder does not bridge |
| `Placeholder.VersionReplacedOnceAndForAll` | promotion-service/pkg/utils/githandler.go:144-147 | for such versions no placeholder is left in any file and replacing again changes nothing |
| `Placeholder.KeptnBridges` | promotion-service/pkg/utils/githandler.go:144 | counterexample: a file that still holds a placeholder after the version "keptn" was filled in |
| `Placeholder.Pieces` | promotion-service/pkg/utils/githandler.go:271 | every text is made of pieces without placeholder, with one placeholder between any two of them |
| `Placeholder.PiecesStay` | promotion-service/pkg/utils/githandler.go:265-278 | the replacement keeps the pieces and puts the version in the place of each placeholder between them |
| `Placeholder.VersionFilledIn` | promotion-service/pkg/utils/githandler.go:144-147 | so it is for the placeholder of the promotion service, whatever the file and the version |
| `ServicePath.ComponentsOfRender` | promotion-service/pkg/utils/githandler.go:229-235 | splitting a rendered path gives its names back |
| `ServicePath.CutExactlyWhenWellPlaced` | promotion-service/pkg/utils/githandler.go:229-234 | cutting after the first occurrence of the service name yields the path below the service directory if and only if the name occurs in no directory above it |
| `ServicePath.DestinationIsRelative` | promotion-service/pkg/utils/githandler.go:229-235 | with a well placed name a walked path is sent to the destination plus its path below the source root |
| `ServicePath.DestinationExactly` | promotion-service/pkg/utils/githandler.go:229-235 | the exact condition, for any valid walked path: it is sent there if and only if the name is well placed, or the last directory above is the service name followed by two dots and leads back to a directory of that name |
| `ServicePath.DestinationOfMisplaced` | promotion-service/pkg/utils/githandler.go:229-235 | where the files of a misplaced service end up: under what is left of the first directory name that holds the service name, the directories after it, and the service name again |
| `ServicePath.DestinationInjective` | promotion-service/pkg/utils/githandler.go:229-235 | two walked paths are never sent to the same destination |
| `ServicePath.MasterIsMisplaced` | promotion-service/pkg/utils/githandler.go:107-110 | counterexample: the files of a service called "master" go to a directory 1/base/master below their destination |
| `ReleaseTag.BuildLabels` | keptn-operator/controllers/keptnservicedeploymentcontroller/keptnservicedeployment_controller.go:265-280 | the labels of a deployment event, filled by a loop over the user's labels in any order: version and config version (empty becomes "0"), overridden by the user's |
| `ReleaseTag.TagInjective` | gitops-operator/controllers/utils_artifactdelivery.go:39-42 | with dash-free versions the tag determines service, version and config version, whatever dashes the service name has |
| `ReleaseTag.UnmistakableExactly` | gitops-operator/controllers/utils_artifactdelivery.go:39-42 | the exact condition: no other service with dash-free versions has the tag if and only if version and config version have no dash |
| `ReleaseTag.DashedVersionsCollide` | gitops-operator/controllers/utils_artifactdelivery.go:42 | counterexample: a version with a dash shares its tag with another service |
| `ReleaseTag.PublishedIsCloned` | promotion-service/eventhandler/eventhandlers.go:42-58 | the promotion service clones the tag the delivery published when the user's labels do not use the two keys |
| `ReleaseTag.PublishedIsClonedExactly` | promotion-service/pkg/utils/githandler.go:88 | with dash-free versions: if and only if the user's labels leave both values as they are |
| `ReleaseTag.DefaultConfigVersion` | promotion-service/eventhandler/eventhandlers.go:55-58 | labels without a config version name the tag published for an empty one, with "0" at its end |
| `ReleaseTag.NoVersionLabel` | promotion-service/eventhandler/eventhandlers.go:42-52 | nothing is cloned if and only if there is no version label |
| `ReleaseTag.TagNames` | gitops-operator/controllers/utils_artifactdelivery.go:39-42 | otherwise both tags are service, version and config version with dashes between them |
| `ReleaseTag.LabelsOfEvent` | keptn-operator/controllers/keptnservicedeploymentcontroller/keptnservicedeployment_controller.go:265-280 | label by label: the user's own, else the version and the config version, and nothing else |
| `FileTree.FileSystem.RemoveAll` | gitops-operator/controllers/fileutils.go:160-166 | removes exactly the subtree, a missing one too; succeeds if and only if no file is on the way |
| `FileTree.FileSystem.MkdirAll` | gitops-operator/controllers/fileutils.go:106 | creates exactly the missing directories on the way; succeeds if and only if no file is in the way |
| `FileTree.FileSystem.Rename` | promotion-service/pkg/utils/githandler.go:251 | moves one file, replacing a file but never a directory |
| `FileTree.FileSystem.ReadDir` | gitops-operator/controllers/fileutils.go:111 | the names in a directory, each once |
| `FileTree.FileSystem.CopyFile` | gitops-operator/controllers/fileutils.go:42-80 | the destination holds the content of the source and nothing else changes; a failure touches the destination only |
| `FileTree.CopiedAll` | gitops-operator/controllers/fileutils.go:116-136 | when every entry of a directory has been copied, the whole subtree has been |
| `FileTree.FileSystem.CopyDir` | gitops-operator/controllers/fileutils.go:85-139 | on success the subtree at the destination is the subtree at the source without symbolic links, missing ancestors are made, and every other path is unchanged; on a reliable file system it succeeds if and only if the source is a directory, the destination is absent and no file is in its way; a failure changes nothing outside the destination and its ancestors; it ends because the source subtree shrinks |
| `FileTree.FileSystem.CopyChildren` | gitops-operator/controllers/fileutils.go:116-136 | the loop over the entries, in any order |
| `FileTree.FileSystem.CopyChild` | gitops-operator/controllers/fileutils.go:117-135 | one entry: recursion for a directory, nothing for a symbolic link, a file copy otherwise |
| `GitClient.PublishSynced` | gitops-operator/controllers/common/git.go:97-176 | on a synchronised clone, publishing succeeds if and only if the flag agrees with the tag map; then the tag names the new commit on both sides and every other tag is kept, and otherwise the upstream repository is untouched |
| `GitClient.VisitMovesTag` | gitops-operator/controllers/utils_artifactdelivery.go:44-52 | one visit, also when tags collide: a tag that may not be overwritten moves if and only if tags cannot be listed, or it is lightweight and an earlier visit has set the flag; whole runs are in `DeliveryRun.TagMovesExactly` |
| `GitClient.Client.TagExists` | gitops-operator/controllers/common/git.go:71-85 | finds annotated tags only |
| `GitClient.Client.DeleteTag` | gitops-operator/controllers/common/git.go:179-191 | local deletion first; a failed remote deletion leaves the local one done |
| `GitClient.Client.PushBranchAndTags` | gitops-operator/controllers/common/git.go:153-173 | the branch is pushed before the tags; tags are refused when one differs upstream |
| `GitClient.Client.CommitAndPushUpstream` | gitops-operator/controllers/common/git.go:97-176 | on success exactly the new commit and its tag are added; at every moment other tags are as before and the tag appears only after its commit is on the branch; a flag that disagrees with the tag map fails without touching upstream |
| `Delivery.SnapshotAt` | gitops-operator/controllers/common/git.go:116-125 | a commit records the files and links of the working tree under their relative paths |
| `Delivery.CleanupServiceDirs` | gitops-operator/controllers/fileutils.go:159-172 | base and every listed stage directory of the service are gone, all else is unchanged; succeeds if and only if no file stands at `base`, `stages` or a listed stage |
| `Delivery.DeliverBase` | gitops-operator/controllers/utils_artifactdelivery.go:54-69 | after the cleanup the base copy never fails for an existing destination; base is the service plus the chart; succeeds if and only if nothing is in the way, the sources are directories and the service leaves room for the chart |
| `Delivery.DeliverChart` | gitops-operator/controllers/utils_artifactdelivery.go:64-69 | the chart is copied to `helm/<service>` of the base, if and only if it is a directory and the service brings no file `helm` and no `helm/<service>` of its own |
| `Delivery.DeliverStage` | gitops-operator/controllers/utils_artifactdelivery.go:70-81 | a stage is copied when `Stat` finds its data, and the copy never fails for an existing destination; it succeeds if and only if there is no data, or a directory of data and no leaf in its way |
| `Delivery.DeliverStages` | gitops-operator/controllers/utils_artifactdelivery.go:70-81 | the loop over the stages |
| `Delivery.DeliverFiles` | gitops-operator/controllers/utils_artifactdelivery.go:54-81 | the copies of one service, with the stages whose data arrived; on a reliable file system they succeed if and only if the service is deliverable: a condition on the tree before the cleanup |
| `Delivery.RecordService` | gitops-operator/controllers/utils_artifactdelivery.go:54-82 | the commit differs from the one before exactly by the service's own base and stage files |
| `DeliveryLog.TagsNameCommits` | gitops-operator/controllers/utils_artifactdelivery.go:38-85 | a published service's tag names its own commit, unless a later service took the same tag |
| `DeliveryLog.ChangedTagsAreRecords` | gitops-operator/controllers/utils_artifactdelivery.go:38-85 | every tag that is not as it was belongs to a published service and names the commit of that service |
| `DeliveryLog.ObjectsOfRecords` | gitops-operator/controllers/utils_artifactdelivery.go:38-85 | the tag objects after a run are those of the start and of the published services |
| `DeliveryLog.RecordsAreVisits` | gitops-operator/controllers/utils_artifactdelivery.go:38-52 | exactly the services that were visited and not skipped are published |
| `DeliveryLog.DistinctNamesDistinctTags` | gitops-operator/controllers/utils_artifactdelivery.go:39-42 | versions without dashes give services of distinct names distinct tags |
| `DeliveryLog.AllTagged` | gitops-operator/controllers/utils_artifactdelivery.go:38-85 | the tag of every visited service is there as a tag object, found or made |
| `DeliveryLog.LogDecides` | gitops-operator/controllers/utils_artifactdelivery.go:38-52 | also for services that share tags, every visit is decided by what the repository held at the start and by the services before it with the same tag: new or not, skipped or not, setting the flag or not |
| `DeliveryLog.StuckExactly` | gitops-operator/controllers/utils_artifactdelivery.go:35-52 | the never-reset flag is set after a visit if and only if some service up to it sets it, and disagrees with the tag map somewhere if and only if a service that is not left alone meets the opposite flag: decided by the repository at the start, the order, and which listings worked |
| `DeliveryLog.StuckCases` | gitops-operator/controllers/utils_artifactdelivery.go:35-52 | on a clone and with listing at work that is a service whose tag is new and comes after a replaced one, or whose tag is lightweight and does not |
| `DeliveryRun.DeliverableKept` | gitops-operator/controllers/utils_artifactdelivery.go:54-81 | publishing other services changes nothing about whether a service can be copied |
| `DeliveryRun.DeliverAndPush` | gitops-operator/controllers/utils_artifactdelivery.go:54-85 | the copies and the push of one service; on success the commit is the working tree and carries the tag; the copies fail exactly when the service is not deliverable, the push only when the flag is wrong |
| `DeliveryRun.DeliverService` | gitops-operator/controllers/utils_artifactdelivery.go:38-85 | the tag decision, the sticky flag, the copies and the push |
| `DeliveryRun.NextService` | gitops-operator/controllers/utils_artifactdelivery.go:38-85 | one turn of the loop adds the visited service with its decision to the log and keeps what the whole run promises, or stops with at most this service's commit and tag upstream |
| `DeliveryRun.ProgressStep` | gitops-operator/controllers/utils_artifactdelivery.go:38-85 | a turn that ends well: the service is the next record if and only if it was not skipped, with its commit and its tag |
| `DeliveryRun.VisitAll` | gitops-operator/controllers/utils_artifactdelivery.go:38-86 | the loop over the services in any order |
| `DeliveryRun.ComposeData` | gitops-operator/controllers/utils_artifactdelivery.go:34-88 | for every order of the services. At every moment, also in a run stopped by an error: a tag keeps its commit if no service has it, or if listing works, it is annotated and its services may not overwrite it; and every new tag names a pushed commit. The services are visited in order, each decided by its tag at that moment. On success every service was visited once; the earlier commits are kept and the new ones are one for each service that was not skipped, in order, each holding base (service plus chart) and, for every listed stage, the stage's files or nothing, and otherwise the previous commit; the tags are the old ones with each published service's tag on its own commit. A failed run keeps the commits of the services before the one at which it stopped, and upstream is what they made, but for that service's commit at the head and its tag. With nothing to publish it changes nothing. With listing at work and no fault from outside, in any repository and also for services that share tags, it fails if and only if some service to publish cannot be copied or meets the wrong flag |
| `DeliveryRun.RunFailsExactly` | gitops-operator/controllers/utils_artifactdelivery.go:34-88 | also when some listings fail, for services that share tags, and in any repository: such a run stops at the first service that fails by what was there at the start, in the copies if they cannot succeed, else at the push |
| `DeliveryRun.PushFailsExactly` | gitops-operator/controllers/utils_artifactdelivery.go:34-88 | when all services can be copied, the push fails if and only if some service meets the wrong flag |
| `DeliveryRun.VisitMovesExactly` | gitops-operator/controllers/utils_artifactdelivery.go:38-85 | a whole run, also one that stops and with copies that may fail: a tag moves upstream if and only if some service that has it was visited, was not left alone, and is not the one at which the run stopped |
| `DeliveryRun.TagMovesExactly` | gitops-operator/controllers/utils_artifactdelivery.go:38-85 | and from the input alone: if and only if some service that has it is not left alone and no service up to that one fails |
| `DeliveryOrders.WorksExactly` | gitops-operator/controllers/utils_artifactdelivery.go:34-88 | on a clone, with listing at work and all copies possible, a run goes through if and only if no new tag comes after a replaced one and every lightweight tag does |
| `DeliveryOrders.ProtectedMovesExactly` | gitops-operator/controllers/utils_artifactdelivery.go:38-85 | in a run that goes through, with listing at work, a tag has moved if and only if some service has it that may overwrite it, or some service has it and it was not annotated at the start |
| `DeliveryOrders.EveryOrderExactly` | gitops-operator/controllers/utils_artifactdelivery.go:34-52 | every order of the services works if and only if none has a lightweight tag, or a deleted one it may overwrite whose tag object is left, and none has a new tag beside another one that may be replaced, being annotated or shared |
| `DeliveryOrders.NewAfterReplaced` | gitops-operator/controllers/utils_artifactdelivery.go:34-88 | counterexample: a run over two services, with everything at hand and nothing failing from outside, that does not deliver the new one |
| `DeliveryOrders.LightweightMoves` | gitops-operator/controllers/utils_artifactdelivery.go:34-88 | counterexample: a run over two services that goes through and moves the lightweight tag of the one that may not be overwritten |
| `DeliveryOrders.ComposeTwice` | gitops-operator/controllers/utils_artifactdelivery.go:34-88 | without overwrite-enabled services, from any clone, a second run on the same input, in any order, publishes nothing |
| `Overlay.LaidAll` | promotion-service/pkg/utils/githandler.go:224-257 | when every entry has been walked the whole source tree has been laid over the destination |
| `Overlay.Walk` | promotion-service/pkg/utils/githandler.go:224-257 | the walk with the moving function: on success the source tree is laid over the destination, each source file moved; without a file meeting a directory it succeeds on a reliable file system; nothing else changes |
| `Overlay.WalkChildren` | promotion-service/pkg/utils/githandler.go:224-257 | the walk below one directory, in any order |
| `Overlay.WalkChild` | promotion-service/pkg/utils/githandler.go:224-257 | one entry of a walked directory |
| `Promotion.ClashAfterMkdir` | promotion-service/pkg/utils/githandler.go:219-222 | making the source directory adds no clash but that with a file in the place of the destination |
| `Promotion.MoveFiles` | promotion-service/pkg/utils/githandler.go:216-263 | every file below the source is at its relative place below the destination and none is left behind; succeeds if and only if no file meets a directory |
| `Promotion.OverlaidByTwoMoves` | promotion-service/pkg/utils/githandler.go:203-211 | moving base and then stage leaves the base tree overlaid by the stage tree |
| `Promotion.ClashThroughBase` | promotion-service/pkg/utils/githandler.go:203-211 | the second move clashes exactly when base and stage clash |
| `Promotion.PerformFileMove` | promotion-service/pkg/utils/githandler.go:197-214 | the cleared service directory becomes the base tree overlaid by the stage tree, each file moved once; succeeds if and only if base and stage can be walked and do not clash; the rest of the stage clone is unchanged |
| `StageUpdate.GetValues` | promotion-service/pkg/utils/githandler.go:310-320 | the mapping of a file, or nothing when it cannot be read or parsed |
| `StageUpdate.MergeHelmValues` | promotion-service/pkg/utils/githandler.go:176-195 | the merged values are written over the stage's file if its directory exists, and nothing else changes |
| `StageUpdate.MovableAfterMerge` | promotion-service/pkg/utils/githandler.go:133-141 | writing the merged values neither creates nor hides a clash |
| `StageUpdate.PromotedValuesParse` | promotion-service/pkg/utils/githandler.go:131-141 | the promoted values file parses to `MergeValues(base, stage)` whenever one of the two files parses, even when the stage directory is missing and the merge could not be written |
| `StageUpdate.ReplaceInFile` | promotion-service/pkg/utils/githandler.go:265-278 | the file keeps its pieces with the version between them, the other files are kept |
| `StageUpdate.StageBranch.CommitAndPush` | promotion-service/pkg/utils/githandler.go:149-169 | a commit reaches the branch only as a whole; a failed staging step repeats the commit before |
| `StageUpdate.PromotionRecorded` | promotion-service/pkg/utils/githandler.go:128-160 | what clear, merge, move and replace leave is what the commit records |
| `StageUpdate.ClearAndMerge` | promotion-service/pkg/utils/githandler.go:128-136 | the first two steps |
| `StageUpdate.MoveAndFill` | promotion-service/pkg/utils/githandler.go:138-147 | the next two steps |
| `StageUpdate.PrepareCommit` | promotion-service/pkg/utils/githandler.go:128-154 | the working tree at the time of the commit |
| `StageUpdate.UpdateGitRepo` | promotion-service/pkg/utils/githandler.go:128-173 | the new commit of the stage branch holds, below the service, the stage's files over the base's with merged and filled values, and elsewhere the previous commit; it is pushed if and only if base and stage do not clash; other paths are kept even when steps fail that the code only logs |
| `ReleaseFlow.DeliveredIsPromoted` | gitops-operator/controllers/utils_artifactdelivery.go:54-82 | every file a promotion from the commit that records a service puts on a stage branch, the values file apart, is the file the code repository held for that stage |
| `ReleaseFlow.TagNamesService` | gitops-operator/controllers/utils_artifactdelivery.go:82-85 | after a run, whether it went through or stopped later, a published service's tag names the commit that records this service |
| `ReleaseFlow.DistinctTagsRelease` | gitops-operator/controllers/utils_artifactdelivery.go:39-85 | with distinct tags that holds for every service the run has published |
| `ReleaseFlow.ReleaseCloned` | promotion-service/eventhandler/eventhandlers.go:42-58 | the tag cloned for an event of the published version is that commit |
| `ReleaseClone.NoClashExactly` | promotion-service/pkg/utils/githandler.go:239-257 | in a fresh clone a file meets a directory if and only if a file of one tree lies where the other has files below |
| `ReleaseClone.ClonedMovable` | promotion-service/pkg/utils/githandler.go:197-213 | a fresh clone of a service's commit can be moved to the stage if and only if the code repository's files for base and stage agree on what is a file and what a directory, and nothing stood in their way |
| `ReleaseFlow.RootsOfCommits` | gitops-operator/controllers/utils_artifactdelivery.go:34-85 | every commit of a run has what stood at the start in the way of the service directories |
| `ReleaseFlow.ReleaseMovableExactly` | promotion-service/pkg/utils/githandler.go:197-213 | so whether a release can be moved to a stage is decided by the code repository and the working tree at the start of the run |
| `ReleaseFlow.ReleasedIsPromoted` | promotion-service/pkg/utils/githandler.go:85-160 | end to end: a service published by a run, even one that stopped later, and promoted by an event for its version brings to the stage branch exactly the files the code repository held for that stage when the run started, the values file apart |
| `ReleaseFlow.PromoteRelease` | promotion-service/pkg/utils/githandler.go:78-195 | the stage update from a clone of the release, with nothing failing from outside: it succeeds if and only if the code repository's files allow it, and then brings exactly those files to the branch |
| `ReleaseFlow.ReleasedValues` | promotion-service/pkg/utils/githandler.go:131-147 | and its values file is made of the pieces of a text that parses to `MergeValues` of the base and stage values files of the code repository, with the version in the place of every placeholder between them |
| `ReleaseFlow.ReleasedUnparsed` | promotion-service/pkg/utils/githandler.go:131-147 | when neither values file parses the stage's, else the base's, is promoted as it is with the version filled in |
| `ReleaseContents.PublishedHolds` | gitops-operator/controllers/utils_artifactdelivery.go:54-85 | the commit of every service a run has published, path by path: the service's files, the chart's below helm/<service>, each listed stage's files, and elsewhere the commit before |
| `ReleaseContents.DeliverableExactly` | gitops-operator/controllers/utils_artifactdelivery.go:54-81 | when a service can be delivered, by the code repository and the working tree: its directory and the chart's are there, nothing stands in the way of the chart and the three roots, and each stage has a directory for it or no data |
| `ReleaseContents.NoStageDataPromotable` | promotion-service/pkg/utils/githandler.go:197-263 | a service without data for a stage can be promoted there |
| `ReleaseContents.SourceFileExactly` | promotion-service/pkg/utils/githandler.go:197-213 | on the stage branch the stage's own file wins, then the chart's, then the service's |
| `ReleaseContents.SourceValuesExactly` | promotion-service/pkg/utils/githandler.go:280-308 | the values come from the stage's file and from the chart's, or the service's without a chart |
| `ReleaseContents.StageScalarArrives` | promotion-service/pkg/utils/githandler.go:302-307 | a scalar in the stage's values file is found at its path in the promoted values, whatever the base says |
| `PromotionHandler.Handler.Attempt` | promotion-service/eventhandler/eventhandlers.go:73-79 | one attempt at the stage update and at most six more, stopping at the first that succeeds, which is the last one made |
| `PromotionHandler.Handler.Handle` | promotion-service/eventhandler/eventhandlers.go:26-95 | a promotion event: a started event, one release cloned at most seven times, at most the last attempt pushed, and a finished event that says what happened; a retry that succeeds ends in a dereferenced nil error |
| `PromotionHandler.AnsweredExactly` | promotion-service/eventhandler/eventhandlers.go:26-95 | a started event is answered by exactly one finished event if and only if it can be sent and no retry succeeded; success is reported only for a first attempt that pushed |
| `PromotionHandler.ErrorNamesCause` | promotion-service/eventhandler/eventhandlers.go:42-87 | a finished event names the missing version label, the missing credentials, or the failure of all seven attempts, if and only if that is the first thing that went wrong |
| `PromotionHandler.SilentExactly` | promotion-service/eventhandler/eventhandlers.go:26-40 | nothing is sent if and only if the event does not parse or its start cannot be told |
| `GitOpsReconcile.ApplyConcat` | gitops-operator/controllers/keptngitrepository_controller.go:128-201 | passes over consecutive lists of manifests compose, with the early return |
| `GitOpsReconcile.PassCreatesOne` | gitops-operator/controllers/keptngitrepository_controller.go:128-201 | a pass creates exactly one missing object, or there was none; other kinds and names are untouched |
| `GitOpsReconcile.PassKeepsTruthful` | gitops-operator/controllers/utils_keptnservice.go:52-74 | an object that carries a hash carries the hash of its own spec, after every write |
| `GitOpsReconcile.FullPassApplies` | gitops-operator/controllers/utils_keptnservice.go:16-74 | after a pass that creates nothing, every object has the spec of the last manifest with its kind and name |
| `GitOpsReconcile.RunCreatesOne` | gitops-operator/controllers/keptngitrepository_controller.go:116-205 | a run that misses objects creates one of them and does not record the commit |
| `GitOpsReconcile.RecordedExactly` | gitops-operator/controllers/keptngitrepository_controller.go:116-205 | the commit is recorded by run n if and only if n exceeds the number of missing kind and name pairs |
| `GitOpsReconcile.RunsKeep` | gitops-operator/controllers/keptngitrepository_controller.go:116-205 | over any number of runs hashes stay truthful, unrelated objects untouched, and a recorded commit is fully applied |
| `GitOpsReconcile.Converges` | gitops-operator/controllers/keptngitrepository_controller.go:116-205 | from any state, that many runs plus one apply and record the commit, and further runs change nothing |
| `GitOpsReconcile.DriftRepairedExactly` | gitops-operator/controllers/utils_keptnservice.go:60-64 | an object edited by hand gets the manifest's spec back if and only if its hash is not already the manifest's |
| `GitOpsReconcile.ScheduledNeverApplied` | gitops-operator/controllers/keptngitrepository_controller.go:122-201 | scheduled executions are parsed and never reach the cluster |
| `GitOpsManifests.EarlyExactly` | gitops-operator/controllers/keptngitrepository_controller.go:128-171 | what comes before the delivery are the instances, sequences, stages and projects of the commit |
| `GitOpsManifests.AppliedByLists` | gitops-operator/controllers/keptngitrepository_controller.go:128-203 | what is applied are all manifests of the seven lists, each with the spec of the last one of its name |
| `GitOpsManifests.CreatesFirst` | gitops-operator/controllers/keptngitrepository_controller.go:128-203 | a run creates the first missing object, in the order instances, sequences, stages, projects, services, executions, deployments and of each list, and no other |
| `GitOpsManifests.OrderOfKinds` | gitops-operator/controllers/keptngitrepository_controller.go:128-203 | that order of the kinds |
| `GitOpsManifests.TurnByLists` | gitops-operator/controllers/keptngitrepository_controller.go:75-217 | one run by the lists of its commit: it records the commit if and only if every manifest is there, and then all are applied; else it creates the first that is missing; it delivers if and only if every instance, sequence, stage and project is there |
| `GitOpsManifests.RecordedIsApplied` | gitops-operator/controllers/keptngitrepository_controller.go:75-217 | after any number of runs a recorded commit has every manifest of its seven lists in the cluster, with the spec of the last one of its name and the hash of that spec |
| `GitOpsReconciler.Reconciler.ReconcileObject` | gitops-operator/controllers/utils_keptnservice.go:52-74 | overwrites spec and hash together, or nothing |
| `GitOpsReconciler.Reconciler.CheckCreate` | gitops-operator/controllers/utils_keptnservice.go:16-50 | creates a missing object or reconciles it; a failed call changes nothing |
| `GitOpsReconciler.Reconciler.ApplyKind` | gitops-operator/controllers/keptngitrepository_controller.go:128-136 | the loop over one kind with its early returns |
| `GitOpsReconciler.Reconciler.ApplyKinds` | gitops-operator/controllers/keptngitrepository_controller.go:128-201 | the loops of one half of a run, one after the other |
| `GitOpsReconciler.Reconciler.UpdateStatusResult` | gitops-operator/controllers/keptngitrepository_controller.go:208-217 | a failed status write is only logged |
| `GitOpsReconciler.Reconciler.Apply` | gitops-operator/controllers/keptngitrepository_controller.go:128-201 | both halves with the artifact delivery between them, which is reached if and only if nothing had to be created before it and whose error is only logged |
| `GitOpsReconciler.Reconciler.Reconcile` | gitops-operator/controllers/keptngitrepository_controller.go:75-206 | one whole run; even with failing calls a commit is recorded only when all of it is applied, and by a run that has tried to deliver it, whatever came of that |
| `GitOpsDelivery.AttemptsExactly` | gitops-operator/controllers/keptngitrepository_controller.go:128-171 | exactly the runs from the last creation before the delivery to the one that records the commit attempt the delivery |
| `GitOpsDelivery.DeliveredExactly` | gitops-operator/controllers/keptngitrepository_controller.go:128-205 | a commit has been delivered after n runs if and only if one of these attempts among them worked |
| `GitOpsDelivery.RecordedUndeliveredExactly` | gitops-operator/controllers/keptngitrepository_controller.go:168-205 | a commit is recorded without having been delivered if and only if every one of these attempts failed; it is never tried again |
| `CommitDelivery.RecordedUndeliveredByServices` | gitops-operator/controllers/keptngitrepository_controller.go:116-205 | with each attempt a run of `composeData` that meets no fault from outside: if and only if in every one of them some service cannot be copied or meets the wrong flag, by what was there when it started |
| `ServiceDeployments.Controller.UpdateStatus` | keptn-operator/controllers/keptnservicedeploymentcontroller/keptnservicedeployment_controller.go:182-188 | a status write happens or not |
| `ServiceDeployments.Controller.Reconcile` | keptn-operator/controllers/keptnservicedeploymentcontroller/keptnservicedeployment_controller.go:75-192 | one whole run with the order of its writes and its early returns |
| `ServiceDeployments.TriggerSettles` | keptn-operator/controllers/keptnservicedeploymentcontroller/keptnservicedeployment_controller.go:169-189 | after a trigger whose writes succeeded nothing is due |
| `ServiceDeployments.TriggerRecords` | keptn-operator/controllers/keptnservicedeploymentcontroller/keptnservicedeployment_controller.go:183-189 | the status names the context of the event and the spec it was sent for |
| `ServiceDeployments.PrerequisitesFollow` | keptn-operator/controllers/keptnservicedeploymentcontroller/keptnservicedeployment_controller.go:98-137 | the flags are what the last run saw; a missing project or service sets the update pending |
| `ServiceDeployments.RefusedChangesNothing` | keptn-operator/controllers/keptnservicedeploymentcontroller/keptnservicedeployment_controller.go:139-173 | a run whose event is refused, or whose context cannot be created, changes nothing |
| `ServiceDeployments.SettledStays` | keptn-operator/controllers/keptnservicedeploymentcontroller/keptnservicedeployment_controller.go:98-189 | a settled deployment sends nothing and stays settled unless it is disturbed |
| `ServiceDeployments.TriggerNeedsDisturbance` | keptn-operator/controllers/keptnservicedeploymentcontroller/keptnservicedeployment_controller.go:98-189 | in a whole run, interleaved with edits and other deployments, a settled deployment sends an event only after a disturbance |
| `ServiceDeployments.BetweenTriggers` | keptn-operator/controllers/keptnservicedeploymentcontroller/keptnservicedeployment_controller.go:98-191 | between two triggers of one deployment there was a run that saw project or service missing or could not read the context, an event of another deployment for the same context and stage, or a change from outside |
| `ServiceDeployments.PendingOnlyClearedByTrigger` | keptn-operator/controllers/keptnservicedeploymentcontroller/keptnservicedeployment_controller.go:98-189 | a pending update is cleared only by an event for this spec that Keptn accepted |
| `ServiceDeployments.GoodRunAdvances` | keptn-operator/controllers/keptnservicedeploymentcontroller/keptnservicedeployment_controller.go:98-191 | every good run brings the deployment one step closer to quiet, and a quiet one is left as it is |
| `ServiceDeployments.GoodRunsReachQuiet` | keptn-operator/controllers/keptnservicedeploymentcontroller/keptnservicedeployment_controller.go:98-191 | from any state the quiet state, where the stage's hash is that of the spec, is reached by exactly the number of good runs its distance says, at most four |
| `ServiceDeployments.CalmAdvances` | keptn-operator/controllers/keptnservicedeploymentcontroller/keptnservicedeployment_controller.go:98-191 | an action that does not disturb a deployment never takes it away from the quiet state, and its good runs bring it nearer |
| `ServiceDeployments.GoodRunsAmongOthers` | keptn-operator/controllers/keptnservicedeploymentcontroller/keptnservicedeployment_controller.go:98-191 | with any actions in between that do not disturb it, failing runs and other deployments included, the same number of good runs reaches the quiet state |
| `ServiceDeployments.GoodRunsSendOne` | keptn-operator/controllers/keptnservicedeploymentcontroller/keptnservicedeployment_controller.go:98-191 | as many good runs as the distance says send exactly one event, for the deployment's spec and under the stored context, or none if the context has the spec for its stage and no update is pending |
| `ServiceDeployments.SightingSendsAgain` | keptn-operator/controllers/keptnservicedeploymentcontroller/keptnservicedeployment_controller.go:98-128 | after a run that saw the project or the service missing they send exactly one, also for a deployment that was up to date |
| `ServiceDeployments.NewSpecSends` | keptn-operator/controllers/keptnservicedeploymentcontroller/keptnservicedeployment_controller.go:169-189 | so they do after a change to a spec that the context does not have for its stage |
| `ServiceDeployments.EventsBySightings` | keptn-operator/controllers/keptnservicedeploymentcontroller/keptnservicedeployment_controller.go:98-191 | exactly how many events an up-to-date deployment sends in a run with working calls: one for each group of sightings without an event between them, but for a last one still due |
| `ServiceDeployments.OneIdStep` | keptn-operator/controllers/keptnservicedeploymentcontroller/keptnservicedeployment_controller.go:139-185 | if Keptn echoes what it is supplied, an action keeps the one-id invariant if and only if it does not slip: lose the write of the first answer of a release, send without having read the context (unless no event came before and the answer is the stored id), or drop the context after an event |
| `ServiceDeployments.BrokenStays` | keptn-operator/controllers/keptnservicedeploymentcontroller/keptnservicedeployment_controller.go:139-185 | once the invariant is broken no action mends it |
| `ServiceDeployments.OneContextPerRelease` | keptn-operator/controllers/keptnservicedeploymentcontroller/keptnservicedeployment_controller.go:139-185 | with no condition on the runs but that Keptn echoes what it is supplied: all events for one release, across stages and deployments, carry the id the first was answered, and it is stored, if and only if no action slipped |
| `ServiceDeployments.ForgottenShows` | keptn-operator/controllers/keptnservicedeploymentcontroller/keptnservicedeployment_controller.go:139-171 | an id that is not stored, or not read, shows in the next event for the release, which carries another one |
| `ServiceDeployments.StoredIdStays` | keptn-operator/controllers/keptnservicedeploymentcontroller/keptnservicedeployment_controller.go:173-177 | a stored id never changes, whatever runs fail, unless the context is dropped |
| `ServiceDeployments.UnreadableSendsBare` | keptn-operator/controllers/keptnservicedeploymentcontroller/keptnservicedeployment_controller.go:139-185 | a run that cannot read the context sends an event in any case, which carries no context and is not stored in one |
| `ServiceDeployments.LostWriteSplits` | keptn-operator/controllers/keptnservicedeploymentcontroller/keptnservicedeployment_controller.go:177-180 | counterexample: the first answer is lost when it is written, so one release gets two contexts |
| `ServiceDeployments.UnreadableSplits` | keptn-operator/controllers/keptnservicedeploymentcontroller/keptnservicedeployment_controller.go:139-142 | counterexample: the context is written but not read by the next run, with the same result |
| `ServiceDeployments.ContextNameInjective` | keptn-operator/controllers/keptnservicedeploymentcontroller/keptnservicedeployment_controller.go:252-262 | dash-free services and versions have contexts of their own |
| `ScheduledExecutions.Controllers.ReconcileSchedule` | keptn-operator/controllers/keptnscheduledexeccontroller/keptnscheduledexec_controller.go:58-112 | one run of the scheduled execution controller |
| `ScheduledExecutions.Controllers.UpdateStatus` | keptn-operator/controllers/keptnsequenceexecutioncontroller/keptnsequenceexecution_controller.go:124-174 | a status write happens or not |
| `ScheduledExecutions.Controllers.ReconcileExecution` | keptn-operator/controllers/keptnsequenceexecutioncontroller/keptnsequenceexecution_controller.go:101-178 | one run of the sequence execution controller |
| `ScheduledExecutions.CreatesExactlyOne` | keptn-operator/controllers/keptnscheduledexeccontroller/keptnscheduledexec_controller.go:79-108 | with a monotone clock and working status writes exactly one sequence execution is created once a run after the start time could create it; it sends at most one event plus one for every later sighting of a missing project or service |
| `ScheduledExecutions.AtMostOneEvent` | keptn-operator/controllers/keptnsequenceexecutioncontroller/keptnsequenceexecution_controller.go:124-174 | without such a sighting there is at most one event |
| `ScheduledExecutions.EventsExactly` | keptn-operator/controllers/keptnsequenceexecutioncontroller/keptnsequenceexecution_controller.go:124-174 | exactly how many events are sent: none before the first is answered, then one plus one for each group of sightings without an event between them, but for the last one while its event is due |
| `ScheduledExecutions.SecondEvent` | keptn-operator/controllers/keptnsequenceexecutioncontroller/keptnsequenceexecution_controller.go:124-174 | counterexample: a project that is not seen for a moment makes a scheduled execution send a second event |
| `ScheduledExecutions.GoodRunsSendExactly` | keptn-operator/controllers/keptnsequenceexecutioncontroller/keptnsequenceexecution_controller.go:124-174 | enough good runs send exactly one event for an execution that Keptn has not answered for this spec or whose update is pending, and none for any other |
| `ScheduledExecutions.EventRecorded` | keptn-operator/controllers/keptnsequenceexecutioncontroller/keptnsequenceexecution_controller.go:150-174 | a run that sends an event has seen everything and writes down the answer and the spec |
| `ScheduledExecutions.FlagsFollow` | keptn-operator/controllers/keptnsequenceexecutioncontroller/keptnsequenceexecution_controller.go:124-149 | a run that sends none changes at most the flags, to what it saw, and makes the update pending if something is missing |
| `ScheduledExecutions.RescheduledExactly` | keptn-operator/controllers/keptnscheduledexeccontroller/keptnscheduledexec_controller.go:79-108 | with a new start time exactly one more execution is created if the controller runs both before that time and after it, and none if no run sees it ahead |
| `ScheduledExecutions.LostMarkCreatesAgain` | keptn-operator/controllers/keptnscheduledexeccontroller/keptnscheduledexec_controller.go:88-108 | a creation whose status could not be written is repeated by the next run |
| `ScheduledExecutions.GoodRunsSendOne` | keptn-operator/controllers/keptnsequenceexecutioncontroller/keptnsequenceexecution_controller.go:124-174 | good runs send exactly one event, with the run its distance says, at most the third |
| `ScheduledExecutions.NearerToEvent` | keptn-operator/controllers/keptnsequenceexecutioncontroller/keptnsequenceexecution_controller.go:101-178 | each good run brings the execution nearer to its event, and runs in between that do not find its project or service missing never take it away |
| `ScheduledExecutions.ExactlyOneEvent` | keptn-operator/controllers/keptnsequenceexecutioncontroller/keptnsequenceexecution_controller.go:101-178 | three good runs of the execution, with any runs of both controllers in between that do not find the project or service missing, and none that did after an event: exactly one event is sent |
| `Shipyard.ComposeStage` | keptn-operator/pkg/utils/shipyard.go:84-106 | succeeds if and only if no reference dangles; each reference is resolved to the first sequence of that name, in order; on an error what was resolved before the first dangling one is returned |
| `Shipyard.GetStages` | keptn-operator/pkg/utils/shipyard.go:109-125 | the loop collects the stages of the project |
| `Shipyard.StagesInOrder` | keptn-operator/pkg/utils/shipyard.go:118-122 | every stage of the project is collected, in the order of the list |
| `Shipyard.SourceOf` | keptn-operator/pkg/utils/shipyard.go:118-122 | nothing but the project's stages is collected |
| `Shipyard.CompositionUnique` | keptn-operator/pkg/utils/shipyard.go:57-82 | the composition is determined by stages and sequences |
| `Shipyard.CompositionExactly` | keptn-operator/pkg/utils/shipyard.go:57-82 | a composition exists if and only if no reference of the project's stages dangles |
| `Shipyard.FirstOfNameWins` | keptn-operator/pkg/utils/shipyard.go:84-106 | a reference stands for the first sequence object of that name |
| `Shipyard.ComposedDocument` | keptn-operator/pkg/utils/shipyard.go:57-81 | the document has the fixed version and kind and the stages of the project in order, each with the sequences of its references |
| `Shipyard.ComposeShipyard` | keptn-operator/pkg/utils/shipyard.go:57-82 | composes the project's stages in order under the fixed version and kind, and fails exactly when a reference dangles |
| `Shipyard.CheckProject` | keptn-operator/pkg/utils/keptn.go:64-84 | a named project Keptn does not list is an error; only the empty name can be absent |
| `Shipyard.CheckMeaning` | keptn-operator/pkg/utils/keptn.go:64-84 | a named project is known if and only if it is listed, and a missing one is an error; without a name any project will do |
| `Shipyard.Operator.UpdateShipyard` | keptn-operator/pkg/utils/shipyard.go:18-36 | the stored object gets the new spec unless its recorded hash is that of the document, which a recorded hash of a whole spec never is |
| `Shipyard.Operator.ReconcileProject` | keptn-operator/controllers/keptnprojectcontroller/keptnproject_controller.go:128-191 | the project controller from the existence check on |
| `Shipyard.Operator.ReconcileShipyard` | keptn-operator/controllers/keptnshipyardcontroller/keptnshipyard_controller.go:82-182 | one run of the shipyard controller, with lost answers and failing records |
| `Shipyard.MatchesExactly` | keptn-operator/controllers/keptnshipyardcontroller/keptnshipyard_controller.go:165-174 | one action breaks the match of recorded hash and pushed shipyard if and only if it pushes another document without recording it |
| `Shipyard.RecordedMatchesPushed` | keptn-operator/controllers/keptnshipyardcontroller/keptnshipyard_controller.go:106-178 | if no record fails after a push, a recorded hash always matches the last pushed shipyard, whatever users change in between |
| `Shipyard.FlagNeverFalls` | keptn-operator/controllers/keptnshipyardcontroller/keptnshipyard_controller.go:134-148 | the shipyard's project flag is never taken back for a named project: the branch that would do it is not reached |
| `Shipyard.ProjectFlagFollows` | keptn-operator/controllers/keptnprojectcontroller/keptnproject_controller.go:128-146 | the project's flag is what the last run saw whose status could be written, and a run that changes it does nothing else |
| `Shipyard.ObjectWrittenExactly` | keptn-operator/controllers/keptnprojectcontroller/keptnproject_controller.go:147-191 | the shipyard object is written if and only if the project is seen, as the flag says, everything can be read and written and no reference dangles; it then has the composed spec and its status is kept |
| `Shipyard.PushedExactly` | keptn-operator/controllers/keptnshipyardcontroller/keptnshipyard_controller.go:82-178 | the upstream file and the record change only to the stored document and its hash, for a known project and a push that was not refused |
| `Shipyard.ObjectFlagFollows` | keptn-operator/controllers/keptnshipyardcontroller/keptnshipyard_controller.go:140-160 | the object's flag follows the project by a run that does nothing else |
| `Shipyard.GoodProjectRun` | keptn-operator/controllers/keptnprojectcontroller/keptnproject_controller.go:128-191 | a good project run brings the stored object one step closer to the composition and leaves it alone when it is there |
| `Shipyard.GoodShipyardRun` | keptn-operator/controllers/keptnshipyardcontroller/keptnshipyard_controller.go:106-178 | a good shipyard run brings the upstream file one step closer to the stored object |
| `Shipyard.Converges` | keptn-operator/controllers/keptnshipyardcontroller/keptnshipyard_controller.go:106-178 | once edits stop, enough good project runs (at most two) followed by three good shipyard runs, with any others in between, bring the upstream file to the composition |
| `Shipyard.ConvergesAfterAnyRun` | keptn-operator/controllers/keptnshipyardcontroller/keptnshipyard_controller.go:106-178 | the same after any run without stray pushes and object edits, whatever calls failed and stages and sequences were edited in it |
| `Shipyard.GoodShipyardConsistent` | keptn-operator/controllers/keptnshipyardcontroller/keptnshipyard_controller.go:151-174 | a good shipyard run records what it pushes |
| `Shipyard.CurrentStays` | keptn-operator/controllers/keptnshipyardcontroller/keptnshipyard_controller.go:106-178 | from then on good runs change nothing |
| `Shipyard.UpdateNeverSuppressed` | keptn-operator/pkg/utils/shipyard.go:18-36 | after any runs and edits of stages and sequences, a project run whose calls work leaves the stored spec equal to the current composition: comparing hashes never suppresses the update |
| `Shipyard.DanglingFreezes` | keptn-operator/controllers/keptnprojectcontroller/keptnproject_controller.go:159-163 | while a reference dangles the stored object is not touched |
| `Shipyard.StrayPushCanStick` | keptn-operator/controllers/keptnshipyardcontroller/keptnshipyard_controller.go:131-178 | counterexample: after a push that was not recorded and a spec that was taken back, the recorded hash hides the wrong upstream file from every later good run |
| `Shipyard.CurrentExactly` | keptn-operator/controllers/keptnshipyardcontroller/keptnshipyard_controller.go:131-178 | the exact condition: once the stored object is the composition, good runs with three of the shipyard controller bring it upstream if and only if its hash is not recorded for another upstream file |
| `Shipyard.CurrentExactlyFrom` | keptn-operator/controllers/keptnshipyardcontroller/keptnshipyard_controller.go:131-178 | from any sound state, enough good runs end there if and only if that holds when the object has become the composition |
| `ProjectFinalizer.TakeOff` | keptn-operator/controllers/keptnprojectcontroller/keptnproject_controller.go:117-119 | when the finalizer comes off, every version the cache may still show is under deletion |
| `ProjectFinalizer.OutsideKeepsStored` | keptn-operator/controllers/keptnprojectcontroller/keptnproject_controller.go:97-106 | users and Keptn keep the version invariant |
| `ProjectFinalizer.StepKeepsStored` | keptn-operator/controllers/keptnprojectcontroller/keptnproject_controller.go:82-146 | so does every call of the controller: a version the cache may still show with the finalizer belongs to an object that still holds it |
| `ProjectRuns.DeleteUndoes` | keptn-operator/controllers/keptnprojectcontroller/keptnproject_controller.go:107-115 | a delete comes after every create before it has ended |
| `ProjectRuns.StepAccounted` | keptn-operator/controllers/keptnprojectcontroller/keptnproject_controller.go:107-146 | every call keeps the accounts of creates and deletes |
| `ProjectRuns.RunKeeps` | keptn-operator/controllers/keptnprojectcontroller/keptnproject_controller.go:71-157 | every reachable state keeps both invariants |
| `ProjectRuns.CreatesOnlyForHeld` | keptn-operator/controllers/keptnprojectcontroller/keptnproject_controller.go:97-146 | a Keptn project is created only for a stored object that holds the finalizer, and it holds it until the create is answered |
| `ProjectRuns.VanishesOnlyAfterDelete` | keptn-operator/controllers/keptnprojectcontroller/keptnproject_controller.go:97-146 | in every run an object that went away had each create answered, or cut off by a crash, and Keptn asked after that to delete the project |
| `ProjectRuns.NoCreateAfterVanishing` | keptn-operator/controllers/keptnprojectcontroller/keptnproject_controller.go:97-146 | nothing is created for an object that has gone |
| `ProjectRuns.OrphanedExactly` | keptn-operator/controllers/keptnprojectcontroller/keptnproject_controller.go:204-271 | when no stored object holds the finalizer, Keptn is left with a project if and only if its last answer was a refusal to delete it or a create took effect after its last answer, and no delete has taken effect since |
| `ProjectRuns.SmoothRunsLeaveNothing` | keptn-operator/controllers/keptnprojectcontroller/keptnproject_controller.go:204-271 | without refused deletes, failed creates and crashes Keptn has a project only while a stored object holds the finalizer |
| `ProjectRuns.RefusalOrphans` | keptn-operator/controllers/keptnprojectcontroller/keptnproject_controller.go:218-222 | counterexample: the status of the answer is not looked at, so a refusal does leave the project behind |
| `ProjectRuns.LateCreateOrphans` | keptn-operator/controllers/keptnprojectcontroller/keptnproject_controller.go:226-270 | counterexample: a create that was given up and takes effect after the accepted delete leaves one too |
| `ProjectReconciler.Reconciler.Put` | keptn-operator/controllers/keptnprojectcontroller/keptnproject_controller.go:101-122 | an object under deletion without finalizers goes away, any other write is a new version |
| `ProjectReconciler.Reconciler.Happen` | keptn-operator/controllers/keptnprojectcontroller/keptnproject_controller.go:97-106 | what users and Keptn do between two calls |
| `ProjectReconciler.Reconciler.UpdateObject` | keptn-operator/controllers/keptnprojectcontroller/keptnproject_controller.go:103-119 | an update is refused unless the copy is the stored version; it may also take effect without an answer |
| `ProjectReconciler.Reconciler.Reconcile` | keptn-operator/controllers/keptnprojectcontroller/keptnproject_controller.go:71-157 | one run, with users and Keptn acting before each call, is a run of the protocol from its read to its end; with answered calls and nobody else acting it is the run of `ProjectCalm` |
| `ProjectReconciler.Reconciler.Finalize` | keptn-operator/controllers/keptnprojectcontroller/keptnproject_controller.go:107-126 | delete in Keptn first, then take the finalizer off |
| `ProjectReconciler.Reconciler.DeleteProject` | keptn-operator/controllers/keptnprojectcontroller/keptnproject_controller.go:204-223 | any answer counts as success |
| `ProjectReconciler.Reconciler.EnsureProject` | keptn-operator/controllers/keptnprojectcontroller/keptnproject_controller.go:128-157 | existence check, status flag and creation |
| `ProjectReconciler.Reconciler.CreateProject` | keptn-operator/controllers/keptnprojectcontroller/keptnproject_controller.go:141-146 | nothing is sent when the secret cannot be decrypted; else the create is sent, and answered or given up, while users and Keptn act |
| `ProjectCalm.RecordsWhatItSees` | keptn-operator/controllers/keptnprojectcontroller/keptnproject_controller.go:97-154 | with answered calls and nobody else acting: a run on an object that is not being deleted puts the finalizer on, and when Keptn and the status disagree about the project the status then says what the run saw |
| `ProjectCalm.AsksForMissing` | keptn-operator/controllers/keptnprojectcontroller/keptnproject_controller.go:128-146 | when both say that the project is missing it is asked for, and the object is left as it is |
| `ProjectCalm.LeavesPresent` | keptn-operator/controllers/keptnprojectcontroller/keptnproject_controller.go:128-157 | when both say that it is there nothing is sent |
| `ProjectCalm.TwoRunsAsk` | keptn-operator/controllers/keptnprojectcontroller/keptnproject_controller.go:97-157 | from any object that is not being deleted two runs that do not see the project ask for it |
| `ProjectCalm.DeletesAndLetsGo` | keptn-operator/controllers/keptnprojectcontroller/keptnproject_controller.go:107-126 | a run on an object under deletion asks for the deletion once and takes the finalizer off, and the object goes unless it has another one |
| `ProjectCalm.LeavesLetGo` | keptn-operator/controllers/keptnprojectcontroller/keptnproject_controller.go:107-126 | an object under deletion without the finalizer is left alone |
| `ProjectCalm.FailedUpdateEnds` | keptn-operator/controllers/keptnprojectcontroller/keptnproject_controller.go:97-126 | an update that is not answered ends the run, and one from a stale copy changes nothing |
| `ProjectCalm.UnansweredDeleteEnds` | keptn-operator/controllers/keptnprojectcontroller/keptnproject_controller.go:107-115 | a delete without an answer ends the run and leaves the finalizer |
| `ProjectCalm.CreateEnds` | keptn-operator/controllers/keptnprojectcontroller/keptnproject_controller.go:141-146 | a create ends the run, accepted or not |

## Left out

- FileTree.FileSystem.CopyDir: a symbolic link is a leaf that `Stat` does not follow, so links to directories are not modelled; a destination below the source is excluded, because the code would copy without end; file modes are left out.
- FileTree.FileSystem.ReadDir: the model leaves the order of names open, where Go sorts them.
- GitClient.Client.CommitAndPushUpstream: the branch is a line of commits made by this client; merges, `.gitignore` and pushes by others while it runs are not modelled.
- DeliveryRun.ComposeData: the sources are required to lie outside the working tree, as the callers arrange with temporary directories.
- Promotion.PerformFileMove: for a service name that is not well placed it is shown where each file is sent (ServicePath), not the tree this leads to.
- StageUpdate.UpdateGitRepo: cloning is a precondition (two clones side by side); a values file that is a symbolic link is excluded in PromotedValuesParse.
- HelmValuesHeap.MergeEntries: `append` is a new list, so sharing of spare capacity between slices is not modelled.
- HelmValues.MergeTop: maps with keys that are not strings are scalars, as `merge` treats them.
- PromotionHandler.Handler.Handle: each attempt at the stage update is an outcome given from outside; the update itself is in StageUpdate. The panic of a successful retry ends the handler.
- GitOpsReconciler.Reconciler.ReconcileObject: objects without an annotation map are excluded; the code writes to a nil map there.
- GitOpsReconciler.Reconciler.Apply: the artifact delivery is an outcome given from outside; what it does is in DeliveryRun.
- Shipyard.Operator.ReconcileShipyard: the project named in a shipyard's spec does not change, and nobody else writes the ConfigMap's hash or the upstream file.
- ProjectReconciler.Reconciler.Reconcile: a crash is an action of the protocol and not of the method; the shipyard part of the run is in Shipyard.
- Finding service and stage directories, reading their metadata and the project name: parsing with little logic.
- The instance, service, stage and sequence controllers: thin, or repeats of the project controller.
- Encryption, HTTP requests, CloudEvents, the Kubernetes client, splitting YAML streams, and the real git.
- Logging, recorder events, requeue intervals and timestamps.
