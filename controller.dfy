/**
 * The cluster controller: it sequences the lifecycle actions, keeps the
 * state store in step with the hardware-affecting ones (bootstrap saves,
 * destroy removes the record), applies the launch rollback rule, and
 * reconciles the provider's live nodes with the roles last stored.
 *
 * The six actions are collaborators whose bodies are not modelled: each is
 * a function that either returns a cluster or fails with a cause.
 */
module Controller {
  import opened Wrappers
  import opened Compute
  import opened ClusterModel
  import opened StateStore

  datatype Phase = Bootstrap | Configure | Start | Stop | Cleanup | Destroy

  /** An action run on a cluster: the cluster it returns, or the cause of
      its failure. */
  type Action = (ClusterSpec, Cluster) -> Result<Cluster, string>

  /** The actions the controller delegates to. Bootstrap starts from no
      cluster at all. */
  datatype Actions = Actions(
    bootstrap: ClusterSpec -> Result<Cluster, string>,
    configure: Action,
    start: Action,
    stop: Action,
    cleanup: Action,
    destroy: Action)

  /** What a controller operation raises. */
  datatype Failure =
    | ActionFailed(phase: Phase, cause: string)
    | StorageFailed(error: StoreError)
    | LookupFailed(id: string)
    | LaunchFailed(original: Failure)

  /** An observable step of the controller: an action run (on the cluster
      it was given; bootstrap is given none), a record saved, the record
      destroyed. */
  datatype Step = Executed(phase: Phase, input: Option<Cluster>) | Saved(cluster: Cluster) | RecordDestroyed

  /** What an operation on the store's record does: its outcome, the record
      afterwards and the steps it took. */
  datatype Run<T> = Run(outcome: Result<T, Failure>, record: Option<string>, steps: seq<Step>)

  predicate ServicePhase(phase: Phase)
  {
    phase == Configure || phase == Start || phase == Stop || phase == Cleanup
  }

  function ServiceAction(a: Actions, phase: Phase): Action
    requires ServicePhase(phase)
  {
    match phase
    case Configure => a.configure
    case Start => a.start
    case Stop => a.stop
    case Cleanup => a.cleanup
  }

  /** An action's result as the controller raises it. */
  function Outcome(phase: Phase, result: Result<Cluster, string>): Result<Cluster, Failure>
  {
    match result
    case Success(c) => Success(c)
    case Failure(cause) => Failure(ActionFailed(phase, cause))
  }

  predicate RanPhase(steps: seq<Step>, phase: Phase)
  {
    exists k :: 0 <= k < |steps| && steps[k].Executed? && steps[k].phase == phase
  }

  // ---------------------------------------------------------------------
  // Bootstrap, destroy and launch, as functions of the stored record

  function BootstrapRun(a: Actions, spec: ClusterSpec, record: Option<string>): Run<Cluster>
  {
    match a.bootstrap(spec)
    case Success(c) => Run(Success(c), Some(Serialized(c.instances)), [Executed(Bootstrap, None), Saved(c)])
    case Failure(cause) => Run(Failure(ActionFailed(Bootstrap, cause)), record, [Executed(Bootstrap, None)])
  }

  function DestroyRun(a: Actions, spec: ClusterSpec, record: Option<string>): Run<()>
  {
    var cluster := LoadOrEmpty(spec, record);
    match a.destroy(spec, cluster)
    case Success(_) => Run(Success(()), None, [Executed(Destroy, Some(cluster)), RecordDestroyed])
    case Failure(cause) => Run(Failure(ActionFailed(Destroy, cause)), record, [Executed(Destroy, Some(cluster))])
  }

  /** Bootstrap, then configure on its result, then start on configure's,
      stopping at the first failure. */
  function PipelineRun(a: Actions, spec: ClusterSpec, record: Option<string>): Run<Cluster>
  {
    var b := BootstrapRun(a, spec, record);
    if b.outcome.Failure? then b
    else
      var bootstrapped := b.outcome.value;
      var configured := Outcome(Configure, a.configure(spec, bootstrapped));
      var configureSteps := b.steps + [Executed(Configure, Some(bootstrapped))];
      if configured.Failure? then Run(configured, b.record, configureSteps)
      else
        var started := Outcome(Start, a.start(spec, configured.value));
        Run(started, b.record, configureSteps + [Executed(Start, Some(configured.value))])
  }

  /** The pipeline, and on a failure the rollback the specification asks for. */
  function LaunchRun(a: Actions, spec: ClusterSpec, record: Option<string>): Run<Cluster>
  {
    var p := PipelineRun(a, spec, record);
    if p.outcome.Success? then p
    else if !spec.terminateAllOnLaunchFailure then
      Run(Failure(LaunchFailed(p.outcome.error)), p.record, p.steps)
    else
      var d := DestroyRun(a, spec, p.record);
      var outcome: Result<Cluster, Failure> :=
        if d.outcome.Failure? then Failure(d.outcome.error) else Failure(LaunchFailed(p.outcome.error));
      Run(outcome, d.record, p.steps + d.steps)
  }

  /** Bootstrap saves exactly the cluster it returns, right after the
      action, and touches the record not at all when the action fails; a
      record saved from record-safe instances loads back as those instances. */
  lemma BootstrapSavesResult(a: Actions, spec: ClusterSpec, record: Option<string>)
    ensures a.bootstrap(spec).Success? ==>
      var c := a.bootstrap(spec).value;
      var run := BootstrapRun(a, spec, record);
      && run.outcome == Success(c)
      && run.steps == [Executed(Bootstrap, None), Saved(c)]
      && run.record == Some(Serialized(c.instances))
      && ((forall k :: 0 <= k < |c.instances| ==> RecordSafe(c.instances[k])) && DistinctIds(c.instances)
          ==> Loaded(spec, run.record) == Success(Cluster(RestoredAll(spec, c.instances))))
    ensures a.bootstrap(spec).Failure? ==>
      var run := BootstrapRun(a, spec, record);
      && run.outcome == Failure(ActionFailed(Bootstrap, a.bootstrap(spec).error))
      && run.record == record
      && run.steps == [Executed(Bootstrap, None)]
  {
    if a.bootstrap(spec).Success? {
      var c := a.bootstrap(spec).value;
      if (forall k :: 0 <= k < |c.instances| ==> RecordSafe(c.instances[k])) && DistinctIds(c.instances) {
        UnserializeSerialize(spec, c.instances);
      }
    }
  }

  /** Destroy runs the action on whatever loading gives, the empty cluster
      when the record is missing or malformed, and destroys the record only
      after the action has returned; a failed action leaves the record. */
  lemma DestroyClusterRule(a: Actions, spec: ClusterSpec, record: Option<string>)
    ensures var run := DestroyRun(a, spec, record);
      var cluster := LoadOrEmpty(spec, record);
      && (Loaded(spec, record).Failure? ==> cluster == EmptyCluster())
      && (Loaded(spec, record).Success? ==> cluster == Loaded(spec, record).value)
      && |run.steps| >= 1 && run.steps[0] == Executed(Destroy, Some(cluster))
      && (run.outcome.Success? <==> a.destroy(spec, cluster).Success?)
      && (run.outcome.Success? ==> run.record == None && run.steps == [Executed(Destroy, Some(cluster)), RecordDestroyed])
      && (run.outcome.Failure? ==> run.record == record && RecordDestroyed !in run.steps)
  {
  }

  /** Launch returns normally exactly when all three phases succeed, each
      run on the previous one's result, and then returns start's result
      with bootstrap's cluster saved. */
  lemma LaunchPhaseOrder(a: Actions, spec: ClusterSpec, record: Option<string>)
    ensures LaunchRun(a, spec, record).outcome.Success? <==>
      && a.bootstrap(spec).Success?
      && a.configure(spec, a.bootstrap(spec).value).Success?
      && a.start(spec, a.configure(spec, a.bootstrap(spec).value).value).Success?
    ensures LaunchRun(a, spec, record).outcome.Success? ==>
      var b := a.bootstrap(spec).value;
      var c := a.configure(spec, b).value;
      var run := LaunchRun(a, spec, record);
      && run.outcome.value == a.start(spec, c).value
      && run.steps == [Executed(Bootstrap, None), Saved(b), Executed(Configure, Some(b)), Executed(Start, Some(c))]
      && run.record == Some(Serialized(b.instances))
  {
    var p := PipelineRun(a, spec, record);
    if p.outcome.Failure? && spec.terminateAllOnLaunchFailure {
      assert LaunchRun(a, spec, record).outcome.Failure?;
    }
  }

  lemma PipelineNeverDestroys(a: Actions, spec: ClusterSpec, record: Option<string>)
    ensures !RanPhase(PipelineRun(a, spec, record).steps, Destroy)
  {
  }

  /** The rollback rule: destroy runs exactly when a phase failed and the
      specification asks to terminate everything on launch failure; after a
      failed phase launch always fails, with the original failure wrapped,
      unless the rollback destroy itself fails, whose failure then escapes. */
  lemma LaunchRollbackRule(a: Actions, spec: ClusterSpec, record: Option<string>)
    ensures var p := PipelineRun(a, spec, record);
      var run := LaunchRun(a, spec, record);
      && (RanPhase(run.steps, Destroy) <==> p.outcome.Failure? && spec.terminateAllOnLaunchFailure)
      && (p.outcome.Failure? ==> run.outcome.Failure?)
      && (p.outcome.Failure? && !spec.terminateAllOnLaunchFailure ==>
            run.outcome.error == LaunchFailed(p.outcome.error) && run.record == p.record)
      && (p.outcome.Failure? && spec.terminateAllOnLaunchFailure ==>
            var destroyed := a.destroy(spec, LoadOrEmpty(spec, p.record));
            run.outcome.error == (if destroyed.Failure? then ActionFailed(Destroy, destroyed.error)
                                  else LaunchFailed(p.outcome.error)))
  {
    var p := PipelineRun(a, spec, record);
    var run := LaunchRun(a, spec, record);
    PipelineNeverDestroys(a, spec, record);
    if p.outcome.Failure? && spec.terminateAllOnLaunchFailure {
      var d := DestroyRun(a, spec, p.record);
      assert run.steps == p.steps + d.steps;
      assert run.steps[|p.steps|] == d.steps[0];
    } else {
      assert run.steps == p.steps;
    }
  }

  /** When configure fails after a successful bootstrap of record-safe
      instances and rollback is asked for, destroy runs on the bootstrapped
      instances as the saved record gives them back. */
  lemma RollbackDestroysBootstrappedInstances(a: Actions, spec: ClusterSpec, record: Option<string>)
    requires a.bootstrap(spec).Success?
    requires var b := a.bootstrap(spec).value;
      (forall k :: 0 <= k < |b.instances| ==> RecordSafe(b.instances[k])) && DistinctIds(b.instances)
    requires a.configure(spec, a.bootstrap(spec).value).Failure?
    requires spec.terminateAllOnLaunchFailure
    ensures var b := a.bootstrap(spec).value;
      var run := LaunchRun(a, spec, record);
      && Executed(Destroy, Some(Cluster(RestoredAll(spec, b.instances)))) in run.steps
      && run.outcome.Failure?
  {
    var b := a.bootstrap(spec).value;
    UnserializeSerialize(spec, b.instances);
    var p := PipelineRun(a, spec, record);
    assert p.record == Some(Serialized(b.instances));
    var d := DestroyRun(a, spec, p.record);
    assert d.steps[0] == Executed(Destroy, Some(Cluster(RestoredAll(spec, b.instances))));
    assert LaunchRun(a, spec, record).steps == p.steps + d.steps;
    assert (p.steps + d.steps)[|p.steps|] == d.steps[0];
  }

  // ---------------------------------------------------------------------
  // Reconciling live nodes with stored roles

  /** A listing entry is node metadata of the given group in the running
      state. */
  predicate RunningInGroup(group: string, m: ComputeMetadata)
  {
    match m
    case Node(n) => n.group == Some(group) && n.state == Running
    case OtherResource(_) => false
  }

  /** The listing's nodes that are running in the group, in listing order. */
  function NodesRunningInGroup(resources: seq<ComputeMetadata>, group: string): seq<NodeMetadata>
  {
    if resources == [] then []
    else
      (if RunningInGroup(group, resources[0]) then [resources[0].node] else [])
      + NodesRunningInGroup(resources[1..], group)
  }

  /** The filter keeps exactly the node metadata of the group in the running
      state. */
  lemma {:induction false} NodesRunningInGroupExactly(resources: seq<ComputeMetadata>, group: string)
    ensures forall n :: n in NodesRunningInGroup(resources, group) <==>
      Node(n) in resources && n.group == Some(group) && n.state == Running
  {
    if resources != [] {
      NodesRunningInGroupExactly(resources[1..], group);
      assert forall m :: m in resources <==> m == resources[0] || m in resources[1..];
    }
  }

  /** Iterables.getFirst(addresses, null). */
  function FirstOrNone(addresses: seq<string>): Option<string>
  {
    if addresses == [] then None else Some(addresses[0])
  }

  /** The roles last stored for an id: none when there is no stored cluster
      or no instance with that id; several different instances with the id
      make the lookup fail. */
  function StoredRoles(prior: Option<Cluster>, id: string): Result<seq<string>, Failure>
  {
    match prior
    case None => Success([])
    case Some(c) =>
      match InstanceWithId(c, id)
      case Found(i) => Success(i.roles)
      case NotFound => Success([])
      case Ambiguous => Failure(LookupFailed(id))
  }

  /** A live node as an instance: its id and metadata, its first public and
      private addresses, the specification's credentials, its stored roles. */
  function ToInstance(node: NodeMetadata, prior: Option<Cluster>, spec: ClusterSpec): Result<Instance, Failure>
  {
    match StoredRoles(prior, node.id)
    case Failure(e) => Failure(e)
    case Success(roles) =>
      Success(Instance(SpecCredentials(spec), roles, FirstOrNone(node.publicAddresses),
                       FirstOrNone(node.privateAddresses), node.id, Some(node)))
  }

  /** The instance built for a live node takes its identity and addresses
      from the node and its roles from the stored instance with that id,
      falling back to no roles; it fails only when the stored cluster holds
      several different instances with that id. */
  lemma ToInstanceRecoversStoredRoles(node: NodeMetadata, prior: Option<Cluster>, spec: ClusterSpec)
    ensures ToInstance(node, prior, spec).Failure? <==>
      prior.Some? && exists x, y :: x in prior.value.instances && y in prior.value.instances
                                 && x.id == node.id && y.id == node.id && x != y
    ensures ToInstance(node, prior, spec).Success? ==>
      var i := ToInstance(node, prior, spec).value;
      && i.id == node.id && i.nodeMetadata == Some(node)
      && i.credentials == SpecCredentials(spec)
      && i.publicIp == (if |node.publicAddresses| > 0 then Some(node.publicAddresses[0]) else None)
      && i.privateIp == (if |node.privateAddresses| > 0 then Some(node.privateAddresses[0]) else None)
      && (prior.None? ==> i.roles == [])
      && (prior.Some? && (forall x :: x in prior.value.instances ==> x.id != node.id) ==> i.roles == [])
      && (prior.Some? ==> forall x :: x in prior.value.instances && x.id == node.id ==> i.roles == x.roles)
  {
    if prior.Some? {
      var lookup := InstanceWithId(prior.value, node.id);
      if lookup.Found? {
        assert lookup.instance in prior.value.instances;
      }
    }
  }

  /** The live nodes from the given one on, added to the instances built so far. */
  function Reconcile(spec: ClusterSpec, prior: Option<Cluster>, nodes: seq<NodeMetadata>, acc: seq<Instance>): Result<seq<Instance>, Failure>
    decreases |nodes|
  {
    if nodes == [] then Success(acc)
    else
      match ToInstance(nodes[0], prior, spec)
      case Failure(e) => Failure(e)
      case Success(i) => Reconcile(spec, prior, nodes[1..], Add(acc, i))
  }

  /** One step of reconciliation: the first live node's instance is added,
      or its lookup failure ends it. */
  lemma ReconcileStep(spec: ClusterSpec, prior: Option<Cluster>, nodes: seq<NodeMetadata>, acc: seq<Instance>)
    requires nodes != []
    ensures ToInstance(nodes[0], prior, spec).Failure? ==>
      Reconcile(spec, prior, nodes, acc) == Failure(ToInstance(nodes[0], prior, spec).error)
    ensures ToInstance(nodes[0], prior, spec).Success? ==>
      Reconcile(spec, prior, nodes, acc) == Reconcile(spec, prior, nodes[1..], Add(acc, ToInstance(nodes[0], prior, spec).value))
  {
  }

  /** Reconciliation succeeds exactly when every live node's lookup does. */
  lemma {:induction false} ReconcileSucceedsIffLookupsDo(spec: ClusterSpec, prior: Option<Cluster>, nodes: seq<NodeMetadata>, acc: seq<Instance>)
    ensures Reconcile(spec, prior, nodes, acc).Success? <==>
      forall j :: 0 <= j < |nodes| ==> ToInstance(nodes[j], prior, spec).Success?
    decreases |nodes|
  {
    if nodes != [] {
      ReconcileStep(spec, prior, nodes, acc);
      var first := ToInstance(nodes[0], prior, spec);
      if first.Success? {
        var tail := nodes[1..];
        ReconcileSucceedsIffLookupsDo(spec, prior, tail, Add(acc, first.value));
        assert forall k :: 0 <= k < |tail| ==> tail[k] == nodes[k + 1];
        if !forall j :: 0 <= j < |nodes| ==> ToInstance(nodes[j], prior, spec).Success? {
          var j :| 0 <= j < |nodes| && ToInstance(nodes[j], prior, spec).Failure?;
          assert ToInstance(tail[j - 1], prior, spec).Failure?;
        }
      }
    }
  }

  /** A successful reconciliation yields the instances built so far and one
      instance per live node, nothing else, and no duplicates. */
  lemma {:induction false} ReconcileCoversLiveNodes(spec: ClusterSpec, prior: Option<Cluster>, nodes: seq<NodeMetadata>, acc: seq<Instance>)
    requires Reconcile(spec, prior, nodes, acc).Success?
    ensures var r := Reconcile(spec, prior, nodes, acc).value;
      && (forall x :: x in r <==> x in acc || exists j :: 0 <= j < |nodes| && ToInstance(nodes[j], prior, spec) == Success(x))
      && (NoDuplicates(acc) ==> NoDuplicates(r))
    decreases |nodes|
  {
    if nodes != [] {
      ReconcileStep(spec, prior, nodes, acc);
      var first := ToInstance(nodes[0], prior, spec);
      var tail := nodes[1..];
      var acc' := Add(acc, first.value);
      ReconcileCoversLiveNodes(spec, prior, tail, acc');
      var r := Reconcile(spec, prior, nodes, acc).value;
      assert r == Reconcile(spec, prior, tail, acc').value;
      assert forall k :: 0 <= k < |tail| ==> tail[k] == nodes[k + 1];
      forall x
        ensures x in r <==> x in acc || exists j :: 0 <= j < |nodes| && ToInstance(nodes[j], prior, spec) == Success(x)
      {
        if exists j :: 0 <= j < |nodes| && ToInstance(nodes[j], prior, spec) == Success(x) {
          var j :| 0 <= j < |nodes| && ToInstance(nodes[j], prior, spec) == Success(x);
          if j > 0 {
            assert ToInstance(tail[j - 1], prior, spec) == Success(x);
          }
        }
        if exists j :: 0 <= j < |tail| && ToInstance(tail[j], prior, spec) == Success(x) {
          var j :| 0 <= j < |tail| && ToInstance(tail[j], prior, spec) == Success(x);
          assert ToInstance(nodes[j + 1], prior, spec) == Success(x);
        }
      }
    }
  }

  /** What getInstances yields: the live nodes running in the
      specification's group reconciled with the loaded cluster, when a store
      was given, whose load failure propagates. */
  function InstancesOutcome(spec: ClusterSpec, loaded: Option<Result<Cluster, StoreError>>, resources: seq<ComputeMetadata>): Result<seq<Instance>, Failure>
  {
    var nodes := NodesRunningInGroup(resources, spec.clusterName);
    match loaded
    case None => Reconcile(spec, None, nodes, [])
    case Some(Failure(e)) => Failure(StorageFailed(e))
    case Some(Success(c)) => Reconcile(spec, Some(c), nodes, [])
  }

  // ---------------------------------------------------------------------
  // Running scripts

  /** The parts of the provider's script options the controller sets. */
  datatype RunScriptOptions = RunScriptOptions(
    overridingCredentials: Option<Credentials>,
    wrapInInitScript: bool,
    runAsRoot: bool)

  function DefaultRunScriptOptionsForSpec(spec: ClusterSpec): RunScriptOptions
  {
    RunScriptOptions(Some(SpecCredentials(spec)), false, false)
  }

  /** The options a script runs with, given the caller's (None for null). */
  function EffectiveRunScriptOptions(spec: ClusterSpec, options: Option<RunScriptOptions>): RunScriptOptions
  {
    match options
    case None => DefaultRunScriptOptionsForSpec(spec)
    case Some(o) =>
      if o.overridingCredentials.None? then o.(overridingCredentials := Some(SpecCredentials(spec))) else o
  }

  /** Options and credentials: without options, the specification's
      credentials, no init-script wrapping, not as root; with options that
      carry no credentials, the specification's credentials and the caller's
      flags; with options carrying credentials, the caller's options as they
      are. A script never runs without credentials. */
  lemma RunScriptOptionsChoice(spec: ClusterSpec, options: Option<RunScriptOptions>)
    ensures var o := EffectiveRunScriptOptions(spec, options);
      && o.overridingCredentials.Some?
      && (options.None? ==> o.overridingCredentials == Some(SpecCredentials(spec)) && !o.wrapInInitScript && !o.runAsRoot)
      && (options.Some? && options.value.overridingCredentials.None? ==>
            && o.overridingCredentials == Some(SpecCredentials(spec))
            && o.wrapInInitScript == options.value.wrapInInitScript
            && o.runAsRoot == options.value.runAsRoot)
      && (options.Some? && options.value.overridingCredentials.Some? ==> o == options.value)
  {
  }

  /** The nodes a script runs on and the options it runs with. */
  datatype ScriptRun = ScriptRun(targets: seq<NodeMetadata>, options: RunScriptOptions)

  /** The script targets the nodes satisfying both the caller's condition
      and running in the specification's group. */
  function RunScriptOnNodesMatching(spec: ClusterSpec, condition: NodeMetadata -> bool,
                                    options: Option<RunScriptOptions>, resources: seq<ComputeMetadata>): (r: ScriptRun)
    ensures forall n :: n in r.targets <==>
      Node(n) in resources && RunningInGroup(spec.clusterName, Node(n)) && condition(n)
    ensures r.options == EffectiveRunScriptOptions(spec, options)
  {
    NodesRunningInGroupExactly(resources, spec.clusterName);
    var running := NodesRunningInGroup(resources, spec.clusterName);
    ScriptRun(Matching(running, condition), EffectiveRunScriptOptions(spec, options))
  }

  function Matching(nodes: seq<NodeMetadata>, condition: NodeMetadata -> bool): (r: seq<NodeMetadata>)
    ensures forall n :: n in r <==> n in nodes && condition(n)
  {
    if nodes == [] then []
    else (if condition(nodes[0]) then [nodes[0]] else []) + Matching(nodes[1..], condition)
  }

  // ---------------------------------------------------------------------
  // Destroying one instance

  /** After one instance is destroyed, a record saved from record-safe
      instances with distinct ids reads back as before with exactly the
      instances of that id removed: every other instance is still there with
      the same fields, in the same order. */
  lemma DestroyInstanceKeepsOthers(spec: ClusterSpec, instances: seq<Instance>, id: string)
    requires forall k :: 0 <= k < |instances| ==> RecordSafe(instances[k])
    requires DistinctIds(instances)
    ensures Loaded(spec, Some(Serialized(instances))).Success?
    ensures var before := Loaded(spec, Some(Serialized(instances))).value;
      var after := RemoveInstancesWithId(before, id);
      && Loaded(spec, Some(Serialized(after.instances))) == Success(after)
      && (forall x :: x in after.instances <==> x in before.instances && x.id != id)
  {
    UnserializeSerialize(spec, instances);
    var before := Cluster(RestoredAll(spec, instances));
    RestoredAllSafe(spec, instances);
    var after := RemoveInstancesWithId(before, id);
    RemoveKeepsDistinctIds(before, id);
    RestoredAllStable(spec, instances);
    assert forall k :: 0 <= k < |after.instances| ==> after.instances[k] in before.instances;
    forall k | 0 <= k < |after.instances|
      ensures RecordSafe(after.instances[k])
    {
      var j :| 0 <= j < |before.instances| && before.instances[j] == after.instances[k];
    }
    UnserializeSerialize(spec, after.instances);
    RestoredAllStable(spec, after.instances);
  }

  // ---------------------------------------------------------------------
  // The controller

  class ClusterController {
    /** The lifecycle actions (the handler registry and compute service behind them). */
    const actions: Actions
    /** The state store of the specification this controller is used with. */
    const store: ClusterStateStore
    /** The provider's compute service. */
    const compute: Provider
    /** The steps taken so far, in order. */
    ghost var trace: seq<Step>

    constructor (actions: Actions, store: ClusterStateStore, compute: Provider)
      ensures this.actions == actions && this.store == store && this.compute == compute
      ensures trace == []
    {
      this.actions := actions;
      this.store := store;
      this.compute := compute;
      trace := [];
    }

    /** Runs bootstrap and saves the cluster it returns before returning it. */
    method BootstrapCluster(spec: ClusterSpec) returns (r: Result<Cluster, Failure>)
      requires store.spec == spec
      modifies this, store
      ensures var run := BootstrapRun(actions, spec, old(store.record));
        r == run.outcome && store.record == run.record && trace == old(trace) + run.steps
    {
      var bootstrapped := actions.bootstrap(spec);
      trace := trace + [Executed(Bootstrap, None)];
      if bootstrapped.Failure? {
        return Failure(ActionFailed(Bootstrap, bootstrapped.error));
      }
      store.Save(bootstrapped.value);
      trace := trace + [Saved(bootstrapped.value)];
      r := Success(bootstrapped.value);
    }

    method ExecuteAction(phase: Phase, spec: ClusterSpec, cluster: Cluster) returns (r: Result<Cluster, Failure>)
      requires ServicePhase(phase)
      modifies this
      ensures r == Outcome(phase, ServiceAction(actions, phase)(spec, cluster))
      ensures trace == old(trace) + [Executed(phase, Some(cluster))]
    {
      var result := ServiceAction(actions, phase)(spec, cluster);
      trace := trace + [Executed(phase, Some(cluster))];
      match result
      case Success(c) => r := Success(c);
      case Failure(cause) => r := Failure(ActionFailed(phase, cause));
    }

    /** Runs configure on the given cluster; the store is not touched. */
    method ConfigureServices(spec: ClusterSpec, cluster: Cluster) returns (r: Result<Cluster, Failure>)
      modifies this
      ensures r == Outcome(Configure, actions.configure(spec, cluster))
      ensures trace == old(trace) + [Executed(Configure, Some(cluster))]
    {
      r := ExecuteAction(Configure, spec, cluster);
    }

    /** Runs start on the given cluster; the store is not touched. */
    method StartServices(spec: ClusterSpec, cluster: Cluster) returns (r: Result<Cluster, Failure>)
      modifies this
      ensures r == Outcome(Start, actions.start(spec, cluster))
      ensures trace == old(trace) + [Executed(Start, Some(cluster))]
    {
      r := ExecuteAction(Start, spec, cluster);
    }

    /** Runs stop on the given cluster; the store is not touched. */
    method StopServices(spec: ClusterSpec, cluster: Cluster) returns (r: Result<Cluster, Failure>)
      modifies this
      ensures r == Outcome(Stop, actions.stop(spec, cluster))
      ensures trace == old(trace) + [Executed(Stop, Some(cluster))]
    {
      r := ExecuteAction(Stop, spec, cluster);
    }

    /** Runs cleanup on the given cluster; the store is not touched. */
    method CleanupCluster(spec: ClusterSpec, cluster: Cluster) returns (r: Result<Cluster, Failure>)
      modifies this
      ensures r == Outcome(Cleanup, actions.cleanup(spec, cluster))
      ensures trace == old(trace) + [Executed(Cleanup, Some(cluster))]
    {
      r := ExecuteAction(Cleanup, spec, cluster);
    }

    /** The specification-only form of configure, start, stop and cleanup:
        the cluster is rebuilt from the live nodes and the stored roles (a
        failing load propagates), then the action runs on it. */
    method ExecuteOnLiveCluster(phase: Phase, spec: ClusterSpec) returns (r: Result<Cluster, Failure>)
      requires ServicePhase(phase)
      requires store.spec == spec
      modifies this
      ensures var live := InstancesOutcome(spec, Some(Loaded(spec, store.record)), compute.resources);
        && (live.Failure? ==> r == Failure(live.error) && trace == old(trace))
        && (live.Success? ==>
              && r == Outcome(phase, ServiceAction(actions, phase)(spec, Cluster(live.value)))
              && trace == old(trace) + [Executed(phase, Some(Cluster(live.value)))])
    {
      var live := GetInstances(spec, store);
      if live.Failure? {
        return Failure(live.error);
      }
      r := ExecuteAction(phase, spec, Cluster(live.value));
    }

    /** Runs destroy on the given cluster; the store is not touched. */
    method DestroyGivenCluster(spec: ClusterSpec, cluster: Cluster) returns (r: Result<(), Failure>)
      modifies this
      ensures actions.destroy(spec, cluster).Success? ==> r == Success(())
      ensures actions.destroy(spec, cluster).Failure? ==> r == Failure(ActionFailed(Destroy, actions.destroy(spec, cluster).error))
      ensures trace == old(trace) + [Executed(Destroy, Some(cluster))]
      ensures unchanged(store)
    {
      var result := actions.destroy(spec, cluster);
      trace := trace + [Executed(Destroy, Some(cluster))];
      if result.Failure? {
        return Failure(ActionFailed(Destroy, result.error));
      }
      r := Success(());
    }

    /** Runs destroy on the stored cluster, or the empty one when it cannot
        be loaded, then destroys the record. */
    method DestroyCluster(spec: ClusterSpec) returns (r: Result<(), Failure>)
      requires store.spec == spec
      modifies this, store
      ensures var run := DestroyRun(actions, spec, old(store.record));
        r == run.outcome && store.record == run.record && trace == old(trace) + run.steps
    {
      var cluster := store.TryLoadOrEmpty();
      r := DestroyGivenCluster(spec, cluster);
      if r.Failure? {
        return;
      }
      store.Destroy();
      trace := trace + [RecordDestroyed];
    }

    /** Bootstrap, configure, start; on any failure, destroy everything if
        the specification says so, then fail. */
    method LaunchCluster(spec: ClusterSpec) returns (r: Result<Cluster, Failure>)
      requires store.spec == spec
      modifies this, store
      ensures var run := LaunchRun(actions, spec, old(store.record));
        r == run.outcome && store.record == run.record && trace == old(trace) + run.steps
    {
      ghost var pipeline := PipelineRun(actions, spec, store.record);
      ghost var before := trace;
      var failure: Failure;
      var bootstrapped := BootstrapCluster(spec);
      if bootstrapped.Success? {
        var configured := ConfigureServices(spec, bootstrapped.value);
        if configured.Success? {
          var started := StartServices(spec, configured.value);
          assert pipeline.outcome == started && pipeline.record == store.record;
          assert trace == before + pipeline.steps;
          if started.Success? {
            return started;
          }
          failure := started.error;
        } else {
          failure := configured.error;
        }
      } else {
        failure := bootstrapped.error;
      }
      assert pipeline.outcome == Failure(failure) && pipeline.record == store.record;
      assert trace == before + pipeline.steps;
      if spec.terminateAllOnLaunchFailure {
        var destroyed := DestroyCluster(spec);
        AppendAssociative(before, pipeline.steps, DestroyRun(actions, spec, pipeline.record).steps);
        if destroyed.Failure? {
          return Failure(destroyed.error);
        }
      }
      r := Failure(LaunchFailed(failure));
    }

    /** Destroys one node, then removes every instance with its id from the
        stored record; a failing load propagates and leaves the record. */
    method DestroyInstance(spec: ClusterSpec, instanceId: string) returns (r: Result<(), Failure>)
      requires store.spec == spec
      modifies this, store, compute
      ensures compute.resources == WithoutResource(old(compute.resources), instanceId)
      ensures var loaded := Loaded(spec, old(store.record));
        && (loaded.Failure? ==>
              r == Failure(StorageFailed(loaded.error)) && store.record == old(store.record) && trace == old(trace))
        && (loaded.Success? ==>
              var remaining := RemoveInstancesWithId(loaded.value, instanceId);
              && r == Success(())
              && store.record == Some(Serialized(remaining.instances))
              && trace == old(trace) + [Saved(remaining)])
    {
      compute.DestroyNode(instanceId);
      var loaded := store.Load();
      if loaded.Failure? {
        return Failure(StorageFailed(loaded.error));
      }
      var cluster := RemoveInstancesWithId(loaded.value, instanceId);
      store.Save(cluster);
      trace := trace + [Saved(cluster)];
      r := Success(());
    }

    /** The live nodes running in the specification's group, each turned into
        an instance carrying the roles stored for its id. */
    method GetInstances(spec: ClusterSpec, stateStore: ClusterStateStore?) returns (r: Result<seq<Instance>, Failure>)
      ensures r == InstancesOutcome(spec,
                                    if stateStore == null then None else Some(Loaded(stateStore.spec, stateStore.record)),
                                    compute.resources)
    {
      var prior: Option<Cluster> := None;
      if stateStore != null {
        var loaded := stateStore.Load();
        if loaded.Failure? {
          return Failure(StorageFailed(loaded.error));
        }
        prior := Some(loaded.value);
      }
      var nodes := NodesRunningInGroup(compute.resources, spec.clusterName);
      ghost var expected := Reconcile(spec, prior, nodes, []);
      assert expected == InstancesOutcome(spec,
                                          if stateStore == null then None else Some(Loaded(stateStore.spec, stateStore.record)),
                                          compute.resources);
      var instances: seq<Instance> := [];
      var remaining := nodes;
      while remaining != []
        invariant Reconcile(spec, prior, remaining, instances) == expected
        decreases |remaining|
      {
        var instance := ToInstance(remaining[0], prior, spec);
        ReconcileStep(spec, prior, remaining, instances);
        if instance.Failure? {
          return Failure(instance.error);
        }
        instances := Add(instances, instance.value);
        remaining := remaining[1..];
      }
      r := Success(instances);
    }
  }
}
