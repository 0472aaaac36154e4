# Whirr cluster controller and cluster state store, in Dafny

This project models the core of Apache Whirr's cluster lifecycle. It has two parts.

- **The cluster state store** (`ClusterStateStore`). It keeps the record of a
  cluster's instances as text, one line per instance:
  `id<TAB>role,role,...<TAB>publicIp<TAB>privateIp`. It reads that record back
  with the credentials of the cluster specification, and it falls back to the
  empty cluster when the record cannot be read.
- **The cluster controller** (`ClusterController`). It drives the lifecycle
  actions: bootstrap, configure, start, stop, cleanup and destroy.
  - Bootstrap saves the cluster it returns.
  - Destroying a cluster destroys its record afterwards.
  - Launching applies the terminate-all-on-launch-failure rollback rule.
  - Destroying one instance removes that instance from the record.
  - The provider's live nodes are reconciled with the roles last stored.
  - Scripts run only on the nodes running in the cluster's group, always
    with credentials.

Modules, one per file:

| module | file | contents |
|---|---|---|
| `Wrappers` | `wrappers.dfy` | `Option` and `Result` |
| `Text` | `text.dfy` | splitting on a separator (empty pieces kept), joining, Java's blank-line test |
| `Compute` | `compute.dfy` | the provider's listing of nodes and its `DestroyNode` |
| `ClusterModel` | `cluster.dfy` | specification, instances and clusters; insertion-ordered sets as duplicate-free sequences; lookup and removal by id |
| `StateStore` | `state_store.dfy` | the record format, its reading, the round trip, and the store class over a record that is present or absent |
| `Controller` | `controller.dfy` | the controller class, the specification functions of its runs, and the lemmas about them |

The lifecycle actions are parameters: each is a function that returns a cluster
or fails with a cause. The controller's ghost `trace` records, in order, every
action it runs (with the cluster it was given), every save and every destruction
of the record. The stateful operations are stated against functions of the
record before the call: `BootstrapRun`, `DestroyRun`, `PipelineRun` and
`LaunchRun`. The lemmas are proved about those functions.

**Where the code differs from its design.** Saving and loading are meant to
give the same cluster back, addresses that are absent included. The code does
not keep absent addresses. An absent address
is appended to the record as the text `null`, and it reads back as the
address `"null"`. The model follows the code:

- `UnserializeSerialize` restores addresses that are present;
- `AbsentAddressReadsBackAsNullText` states what happens to an absent one.

Instance ids are meant to identify instances, but neither the record format
nor reading it back keeps them unique. Two lines with the same id and
different roles read back as two instances with that id
(`DuplicateIdsReadBackTwice`). The round trip `UnserializeSerialize` is stated
for clusters whose ids are distinct.

Also, an instance without roles is written with an empty roles field. That
field reads back as the single role `""` (`EmptyRoleSetReadsBackAsEmptyName`).

On a failed launch with `terminateAllOnLaunchFailure` set, the rollback is meant
as a best-effort cleanup, after which the original failure is raised. In the
code, `destroyCluster` runs inside the handler without a guard of its own
(`ClusterController.java:115-124`), so a failing destroy escapes in place of the
original failure. `LaunchRollbackRule` states this: launch then fails with the
destroy failure, and the original failure is lost.

## Model

| member | source | states |
|---|---|---|
| `Text.Split` | core/src/main/java/org/apache/whirr/state/ClusterStateStore.java:117-122 | splitting on a separator always yields at least one piece, and no piece contains the separator |
| `Text.SplitJoin` | core/src/main/java/org/apache/whirr/state/ClusterStateStore.java:94-122 | splitting the joined pieces on the same separator gives the pieces back, when no piece contains it |
| `Text.JoinSplit` | core/src/main/java/org/apache/whirr/state/ClusterStateStore.java:117-122 | joining the pieces of any text gives the text back |
| `Text.SplitAtSeparator` | core/src/main/java/org/apache/whirr/state/ClusterStateStore.java:117-119 | splitting at the first separator peels off the text before it |
| `Text.SplitBlank` | core/src/main/java/org/apache/whirr/state/ClusterStateStore.java:117-118 | every piece of a blank text is blank |
| `ClusterModel.Add` | core/src/main/java/org/apache/whirr/state/ClusterStateStore.java:126 | adding to an insertion-ordered set: the element is in the result, nothing else is added, and no duplicate is introduced |
| `ClusterModel.AddAllContents` | core/src/main/java/org/apache/whirr/state/ClusterStateStore.java:122 | a set built from pieces holds exactly those pieces, without duplicates |
| `ClusterModel.AddAllFresh` | core/src/main/java/org/apache/whirr/state/ClusterStateStore.java:122 | pieces that are pairwise distinct are kept in their order |
| `ClusterModel.AddAllKeepsPrefix` | core/src/main/java/org/apache/whirr/state/ClusterStateStore.java:122 | adding to an insertion-ordered set keeps what was there as a prefix; everything after it is new |
| `ClusterModel.AddAllOrder` | core/src/main/java/org/apache/whirr/state/ClusterStateStore.java:122 | the elements added come after the old ones in the order of their first occurrence |
| `ClusterModel.RemoveInstancesWithId` | core/src/main/java/org/apache/whirr/ClusterController.java:220 | removal keeps exactly the instances whose id differs, with no duplicate introduced |
| `ClusterModel.RemoveKeepsDistinctIds` | core/src/main/java/org/apache/whirr/ClusterController.java:220 | removal keeps the remaining ids distinct |
| `ClusterModel.InstanceWithId` | core/src/main/java/org/apache/whirr/ClusterController.java:294 | no instance with the id gives not found; a found instance is the only one with that id; an ambiguous answer means two different instances share the id |
| `Compute.WithoutResource` | core/src/main/java/org/apache/whirr/ClusterController.java:214-215 | a destroyed node leaves the listing and every other entry stays |
| `StateStore.UnserializeSerialize` | core/src/main/java/org/apache/whirr/state/ClusterStateStore.java:89-131 | reading back a record of record-safe instances with distinct ids gives the same instances, in order, with the same ids, roles and present addresses and the specification's credentials |
| `StateStore.ParseSerialized` | core/src/main/java/org/apache/whirr/state/ClusterStateStore.java:89-131 | reading the lines of a record adds the restored instances after those already read |
| `StateStore.SerializedLines` | core/src/main/java/org/apache/whirr/state/ClusterStateStore.java:89-103 | the record is one newline-terminated line per instance, in order, and it is empty exactly for the empty cluster |
| `StateStore.LineFields` | core/src/main/java/org/apache/whirr/state/ClusterStateStore.java:96-99 | the four tab-separated fields of a line are the id, the comma-joined roles and the two address texts |
| `StateStore.ParseLineOfLine` | core/src/main/java/org/apache/whirr/state/ClusterStateStore.java:119-127 | the line of a record-safe instance reads back as that instance restored |
| `StateStore.AbsentAddressReadsBackAsNullText` | core/src/main/java/org/apache/whirr/state/ClusterStateStore.java:98-99 | an absent public or private address is written as `null` and reads back as the text `"null"` |
| `StateStore.EmptyRoleSetReadsBackAsEmptyName` | core/src/main/java/org/apache/whirr/state/ClusterStateStore.java:94 | an instance without roles reads back with the single role `""` |
| `StateStore.RolesFieldIsInsertionOrderedSet` | core/src/main/java/org/apache/whirr/state/ClusterStateStore.java:122 | the roles read are exactly the comma-separated pieces of the second field, without duplicates, ordered by where each first occurs |
| `StateStore.ExtraFieldsIgnored` | core/src/main/java/org/apache/whirr/state/ClusterStateStore.java:119-124 | only the first four fields of a line are read |
| `StateStore.BlankLinesSkipped` | core/src/main/java/org/apache/whirr/state/ClusterStateStore.java:118 | a run of blank lines only adds nothing |
| `StateStore.BlankLineSkipped` | core/src/main/java/org/apache/whirr/state/ClusterStateStore.java:117-118 | a blank line anywhere among the others adds nothing: reading with it equals reading without it |
| `StateStore.DuplicateIdsReadBackTwice` | core/src/main/java/org/apache/whirr/state/ClusterStateStore.java:115-130 | two instances with the same id and different roles are both read back: nothing keeps ids unique |
| `StateStore.BlankContentIsEmptyCluster` | core/src/main/java/org/apache/whirr/state/ClusterStateStore.java:113-131 | blank content reads as the empty cluster |
| `StateStore.MalformedLineFailsLines` | core/src/main/java/org/apache/whirr/state/ClusterStateStore.java:117-128 | one short, non-blank line anywhere makes reading the lines fail |
| `StateStore.MalformedLineFails` | core/src/main/java/org/apache/whirr/state/ClusterStateStore.java:113-131 | one short, non-blank line anywhere makes reading the whole record fail |
| `StateStore.ParsedInstancesCarrySpecCredentials` | core/src/main/java/org/apache/whirr/state/ClusterStateStore.java:114-127 | instances read from lines carry the specification's credentials and no provider metadata, without duplicates |
| `StateStore.UnserializedInstancesCarrySpecCredentials` | core/src/main/java/org/apache/whirr/state/ClusterStateStore.java:113-131 | every instance read from any record carries the specification's credentials and no metadata, and none is read twice |
| `StateStore.RestoredAll` | core/src/main/java/org/apache/whirr/state/ClusterStateStore.java:126-127 | restoring keeps the number of instances |
| `StateStore.RestoredAllStable` | core/src/main/java/org/apache/whirr/state/ClusterStateStore.java:126-127 | restored instances read back unchanged when restored again |
| `StateStore.RestoredAllSafe` | core/src/main/java/org/apache/whirr/state/ClusterStateStore.java:126-127 | restoring keeps instances record-safe |
| `StateStore.ClusterStateStore.Serialize` | core/src/main/java/org/apache/whirr/state/ClusterStateStore.java:89-103 | the loop builds exactly the record text of the cluster's instances |
| `StateStore.ClusterStateStore.Unserialize` | core/src/main/java/org/apache/whirr/state/ClusterStateStore.java:113-131 | the loop reads the record exactly as `Unserialized` does, including its first failure |
| `StateStore.ClusterStateStore.Load` | core/src/main/java/org/apache/whirr/state/ClusterStateStore.java:49 | a missing record is an error; otherwise the record is read |
| `StateStore.ClusterStateStore.TryLoadOrEmpty` | core/src/main/java/org/apache/whirr/state/ClusterStateStore.java:56-64 | the loaded cluster, or the empty cluster when loading fails |
| `StateStore.ClusterStateStore.Save` | core/src/main/java/org/apache/whirr/state/ClusterStateStore.java:72 | the record becomes the text of the cluster |
| `StateStore.ClusterStateStore.Destroy` | core/src/main/java/org/apache/whirr/state/ClusterStateStore.java:79 | the record is gone |
| `Compute.Provider.DestroyNode` | core/src/main/java/org/apache/whirr/ClusterController.java:214-215 | the node of that id leaves the listing and nothing else changes |
| `Controller.BootstrapSavesResult` | core/src/main/java/org/apache/whirr/ClusterController.java:131-136 | bootstrap saves exactly the cluster it returns, right after the action, and that record loads back as the restored instances; a failed bootstrap leaves the record |
| `Controller.DestroyClusterRule` | core/src/main/java/org/apache/whirr/ClusterController.java:197-208 | destroy runs on the loaded cluster, or the empty one; the record is destroyed only after the action succeeds; a failed action keeps it |
| `Controller.LaunchPhaseOrder` | core/src/main/java/org/apache/whirr/ClusterController.java:106-111 | launch succeeds exactly when bootstrap, configure and start all succeed, each on the previous result, and it returns start's result |
| `Controller.PipelineNeverDestroys` | core/src/main/java/org/apache/whirr/ClusterController.java:108-111 | the three launch phases never run destroy |
| `Controller.LaunchRollbackRule` | core/src/main/java/org/apache/whirr/ClusterController.java:106-126 | destroy runs exactly when a phase failed and termination on launch failure is asked for; launch then always fails, wrapping the original failure, unless the rollback destroy's own failure escapes |
| `Controller.RollbackDestroysBootstrappedInstances` | core/src/main/java/org/apache/whirr/ClusterController.java:106-126 | when configure fails and rollback is asked for, destroy runs on the bootstrapped instances as the saved record gives them back |
| `Controller.NodesRunningInGroupExactly` | core/src/main/java/org/apache/whirr/ClusterController.java:263-268 | the listing filter keeps exactly the node metadata in the listing that is of the group and in the running state |
| `Controller.ToInstanceRecoversStoredRoles` | core/src/main/java/org/apache/whirr/ClusterController.java:288-303 | a live node becomes an instance with its id, metadata, first addresses and the specification's credentials, and with the roles of the stored instance of its id, or no roles; it fails only when several stored instances share the id |
| `Controller.ReconcileSucceedsIffLookupsDo` | core/src/main/java/org/apache/whirr/ClusterController.java:281-285 | reconciling succeeds exactly when every live node's lookup does |
| `Controller.ReconcileCoversLiveNodes` | core/src/main/java/org/apache/whirr/ClusterController.java:278-285 | a successful reconciliation yields one instance per live node and nothing else, without duplicates |
| `Controller.RunScriptOptionsChoice` | core/src/main/java/org/apache/whirr/ClusterController.java:242-246 | no options gives the specification's defaults; options without credentials get the specification's; options with credentials are kept; a script never runs without credentials |
| `Controller.RunScriptOnNodesMatching` | core/src/main/java/org/apache/whirr/ClusterController.java:235-253 | the targets are exactly the listed nodes running in the group that also satisfy the caller's condition, with the effective options |
| `Controller.Matching` | core/src/main/java/org/apache/whirr/ClusterController.java:247-248 | the nodes kept are exactly those satisfying the condition |
| `Controller.DestroyInstanceKeepsOthers` | core/src/main/java/org/apache/whirr/ClusterController.java:218-221 | after removing an id, the saved record reads back as exactly the other instances, unchanged |
| `Controller.ClusterController.constructor` | core/src/main/java/org/apache/whirr/ClusterController.java:74-78 | a controller keeps the collaborators it is given and starts with an empty trace |
| `Controller.ClusterController.BootstrapCluster` | core/src/main/java/org/apache/whirr/ClusterController.java:131-136 | the result, the record and the steps are those of `BootstrapRun` |
| `Controller.ClusterController.ExecuteAction` | core/src/main/java/org/apache/whirr/ClusterController.java:145-188 | runs the phase's action on the given cluster and raises its failure |
| `Controller.ClusterController.ConfigureServices` | core/src/main/java/org/apache/whirr/ClusterController.java:145-149 | configure on the given cluster, with the store untouched |
| `Controller.ClusterController.StartServices` | core/src/main/java/org/apache/whirr/ClusterController.java:158-162 | start on the given cluster, with the store untouched |
| `Controller.ClusterController.StopServices` | core/src/main/java/org/apache/whirr/ClusterController.java:171-175 | stop on the given cluster, with the store untouched |
| `Controller.ClusterController.CleanupCluster` | core/src/main/java/org/apache/whirr/ClusterController.java:184-188 | cleanup on the given cluster, with the store untouched |
| `Controller.ClusterController.ExecuteOnLiveCluster` | core/src/main/java/org/apache/whirr/ClusterController.java:141-182 | the specification-only forms run the action on the live cluster rebuilt from the stored roles; a failing load or lookup propagates and runs nothing |
| `Controller.ClusterController.DestroyGivenCluster` | core/src/main/java/org/apache/whirr/ClusterController.java:204-208 | destroy on the given cluster, with the store untouched |
| `Controller.ClusterController.DestroyCluster` | core/src/main/java/org/apache/whirr/ClusterController.java:197-202 | the result, the record and the steps are those of `DestroyRun` |
| `Controller.ClusterController.LaunchCluster` | core/src/main/java/org/apache/whirr/ClusterController.java:106-126 | the result, the record and the steps are those of `LaunchRun` |
| `Controller.ClusterController.DestroyInstance` | core/src/main/java/org/apache/whirr/ClusterController.java:210-224 | the node is destroyed in every case; a failing load propagates and keeps the record and the trace; otherwise the record becomes the loaded cluster without that id, and the save is recorded in the trace |
| `Controller.ClusterController.GetInstances` | core/src/main/java/org/apache/whirr/ClusterController.java:270-286 | the loop yields the live nodes of the group reconciled with the loaded cluster, or none without a store; a failing load propagates |

## Left out

- The bodies of the lifecycle actions are left out. So are the handler registry, the compute-service factory and the jclouds context. The actions are parameters of the model.
- The concrete store backends and the store factory are left out. The factory is modelled as the one store the controller is given, which requires that store to belong to the same specification. The backends' own I/O failures on save and destroy are not modelled. Load fails when there is no record.
- Logging, thread interruption and `getName` are not modelled.
- `Statement` contents and script execution results are not modelled. `Controller.RunScriptOnNodesMatching` states only the target nodes and the options.
- `RunScriptOptions` is modelled by only the three settings the controller sets.
- `Cluster.java` is not part of this model. Instance lookup by id is modelled with three outcomes: found, not found, and several different instances. The last fails, and the failure is not caught. Removal by id keeps order.
- The Java hash set used for the fallback empty role set has no order. The model uses the empty sequence.
- Unserializing a line that an address cannot be parsed from (`UnknownHostException`) is not modelled. Address texts are kept as text.
- Provider calls do not fail in the model: `Compute.Provider.DestroyNode` always succeeds, and listing the nodes always returns the provider's current listing. No lifecycle action changes that listing, because the actions are functions of the cluster and the provider is outside their frames. So `DestroyInstance` always reaches the record update. In Java, a `destroyNode` that throws (`ClusterController.java:215`) skips the load, the removal and the save.
- Instance equality: `Cluster.Instance` equality is defined in `Cluster.java`, and `Cluster.java` is not part of this model. The insertion-ordered instance sets use structural equality on the model's `Instance`, whose roles are an ordered sequence. So two lines that differ only in role order read back as two instances here. Java would keep one if its equality ignores role order, and two identical lines would stay two if it compares by identity.
