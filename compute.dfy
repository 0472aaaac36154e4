/**
 * The cloud provider as the controller sees it: a listing of resources,
 * some of them node metadata, and the one effect the controller asks of it
 * directly, destroying a node by id. Creating nodes and running scripts
 * belong to the provider and are not modelled.
 */
module Compute {
  import opened Wrappers

  /** The states a provider reports for a node. */
  datatype NodeState = Pending | Terminated | Suspended | Running | Error | Unrecognized

  /** One node as the provider lists it: its id, the group it was created
      in (some providers report none), its state and its addresses. */
  datatype NodeMetadata = NodeMetadata(
    id: string,
    group: Option<string>,
    state: NodeState,
    publicAddresses: seq<string>,
    privateAddresses: seq<string>)

  /** An entry of a provider listing: node metadata, or a resource that is
      not described as a node (some providers list such entries). */
  datatype ComputeMetadata = Node(node: NodeMetadata) | OtherResource(resourceId: string)

  function ResourceId(m: ComputeMetadata): string
  {
    match m
    case Node(n) => n.id
    case OtherResource(id) => id
  }

  /** The listing with every entry of the given id dropped, order kept. */
  function WithoutResource(resources: seq<ComputeMetadata>, id: string): (r: seq<ComputeMetadata>)
    ensures forall m :: m in r <==> m in resources && ResourceId(m) != id
  {
    if resources == [] then []
    else
      (if ResourceId(resources[0]) == id then [] else [resources[0]])
      + WithoutResource(resources[1..], id)
  }

  /** The provider's current listing, changed only by destroying a node. */
  class Provider {
    var resources: seq<ComputeMetadata>

    constructor (resources: seq<ComputeMetadata>)
      ensures this.resources == resources
    {
      this.resources := resources;
    }

    /** Destroying a node removes it from the listing and nothing else. */
    method DestroyNode(id: string)
      modifies this
      ensures resources == WithoutResource(old(resources), id)
    {
      resources := WithoutResource(resources, id);
    }
  }
}
