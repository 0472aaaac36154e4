/**
 * The cluster data model: a cluster specification, the instances of a
 * cluster and the cluster itself as an insertion-ordered set of instances.
 */
module ClusterModel {
  import opened Wrappers
  import opened Compute

  /** Login credentials: a user and private key material. */
  datatype Credentials = Credentials(user: string, privateKey: string)

  /** The parts of a cluster specification the core reads. */
  datatype ClusterSpec = ClusterSpec(
    clusterName: string,
    clusterUser: string,
    privateKey: string,
    terminateAllOnLaunchFailure: bool)

  /** The credentials every instance of a specification's cluster shares. */
  function SpecCredentials(spec: ClusterSpec): Credentials
  {
    Credentials(spec.clusterUser, spec.privateKey)
  }

  /** One provisioned node: credentials, its set of roles (in iteration
      order, without duplicates), its addresses (possibly absent), its id
      and the provider's metadata when it came from a live listing. */
  datatype Instance = Instance(
    credentials: Credentials,
    roles: seq<string>,
    publicIp: Option<string>,
    privateIp: Option<string>,
    id: string,
    nodeMetadata: Option<NodeMetadata>)

  /** A cluster: its instances, in insertion order. */
  datatype Cluster = Cluster(instances: seq<Instance>)

  /** The cluster with no known running nodes. */
  function EmptyCluster(): Cluster
  {
    Cluster([])
  }

  // Insertion-ordered sets (LinkedHashSet) as duplicate-free sequences.

  predicate NoDuplicates<T(==)>(s: seq<T>)
  {
    forall i, j :: 0 <= i < j < |s| ==> s[i] != s[j]
  }

  /** Adding an element already present leaves the set as it is;
      otherwise the element goes last. */
  function Add<T(==, !new)>(s: seq<T>, x: T): (r: seq<T>)
    ensures x in r
    ensures forall y :: y in r <==> y in s || y == x
    ensures NoDuplicates(s) ==> NoDuplicates(r)
  {
    if x in s then s else s + [x]
  }

  /** Adding the elements of `xs` one after another. */
  function AddAll<T(==, !new)>(s: seq<T>, xs: seq<T>): seq<T>
    decreases |xs|
  {
    if xs == [] then s else AddAll(Add(s, xs[0]), xs[1..])
  }

  /** Adding elements collects exactly them and never introduces a duplicate. */
  lemma {:induction false} AddAllContents<T(!new)>(s: seq<T>, xs: seq<T>)
    ensures forall x :: x in AddAll(s, xs) <==> x in s || x in xs
    ensures NoDuplicates(s) ==> NoDuplicates(AddAll(s, xs))
    decreases |xs|
  {
    if xs != [] {
      AddAllContents(Add(s, xs[0]), xs[1..]);
      assert forall x :: x in xs <==> x == xs[0] || x in xs[1..];
    }
  }

  /** Elements that are new and pairwise distinct are appended in order. */
  lemma {:induction false} AddAllFresh<T(!new)>(s: seq<T>, xs: seq<T>)
    requires NoDuplicates(s + xs)
    ensures AddAll(s, xs) == s + xs
    decreases |xs|
  {
    if xs != [] {
      assert (s + xs)[|s|] == xs[0];
      assert forall i :: 0 <= i < |s| ==> (s + xs)[i] == s[i];
      assert s + [xs[0]] + xs[1..] == s + xs;
      AddAllFresh(s + [xs[0]], xs[1..]);
    }
  }

  /** Where `x` first occurs in `s`. */
  function FirstIndex<T(==)>(s: seq<T>, x: T): (k: nat)
    requires x in s
    ensures k < |s| && s[k] == x
    ensures forall j :: 0 <= j < k ==> s[j] != x
  {
    if s[0] == x then 0 else 1 + FirstIndex(s[1..], x)
  }

  lemma FirstIndexTail<T>(xs: seq<T>, x: T)
    requires x in xs && x != xs[0]
    ensures x in xs[1..] && FirstIndex(xs, x) == 1 + FirstIndex(xs[1..], x)
  {
    var k :| 0 <= k < |xs| && xs[k] == x;
    assert xs[1..][k - 1] == x;
  }

  /** Adding elements keeps what was there as a prefix; everything after it
      is new and comes from the elements added. */
  lemma {:induction false} AddAllKeepsPrefix<T(!new)>(s: seq<T>, xs: seq<T>)
    requires NoDuplicates(s)
    ensures var r := AddAll(s, xs);
      && |s| <= |r| && r[..|s|] == s
      && (forall p :: |s| <= p < |r| ==> r[p] in xs && r[p] !in s)
    decreases |xs|
  {
    var r := AddAll(s, xs);
    if xs == [] {
      assert r[..|s|] == s;
    } else {
      var s' := Add(s, xs[0]);
      AddAllKeepsPrefix(s', xs[1..]);
      AddAllContents(s', xs[1..]);
      assert r == AddAll(s', xs[1..]);
      assert r[..|s|] == s'[..|s|];
      forall p | |s| <= p < |r|
        ensures r[p] in xs && r[p] !in s
      {
        if p >= |s'| {
          assert r[p] in xs[1..];
        } else {
          assert r[p] == xs[0];
        }
      }
    }
  }

  /** The elements added come after what was there in the order of their
      first occurrence. */
  lemma {:induction false} AddAllOrder<T(!new)>(s: seq<T>, xs: seq<T>)
    requires NoDuplicates(s)
    ensures var r := AddAll(s, xs);
      && |s| <= |r|
      && (forall p :: |s| <= p < |r| ==> r[p] in xs)
      && (forall p, q :: |s| <= p < q < |r| ==> FirstIndex(xs, r[p]) < FirstIndex(xs, r[q]))
    decreases |xs|
  {
    AddAllKeepsPrefix(s, xs);
    if xs != [] {
      var r := AddAll(s, xs);
      var x0, tail := xs[0], xs[1..];
      var s' := Add(s, x0);
      AddAllOrder(s', tail);
      AddAllKeepsPrefix(s', tail);
      assert r == AddAll(s', tail);
      forall p | |s'| <= p < |r|
        ensures FirstIndex(xs, r[p]) == 1 + FirstIndex(tail, r[p])
      {
        assert x0 in s';
        FirstIndexTail(xs, r[p]);
      }
      if x0 !in s {
        assert r[|s|] == x0 by {
          assert r[..|s'|] == s';
        }
      }
      forall p, q | |s| <= p < q < |r|
        ensures FirstIndex(xs, r[p]) < FirstIndex(xs, r[q])
      {
        if p >= |s'| {
          assert FirstIndex(tail, r[p]) < FirstIndex(tail, r[q]);
        }
      }
    }
  }

  /** The instances with the given id, in order. */
  function InstancesWithId(instances: seq<Instance>, id: string): (r: seq<Instance>)
    ensures forall x :: x in r <==> x in instances && x.id == id
    ensures |r| <= |instances|
  {
    if instances == [] then []
    else
      (if instances[0].id == id then [instances[0]] else [])
      + InstancesWithId(instances[1..], id)
  }

  /** No two instances share an id. */
  predicate DistinctIds(instances: seq<Instance>)
  {
    forall j, k :: 0 <= j < k < |instances| ==> instances[j].id != instances[k].id
  }

  /** The cluster without the instances of the given id, order kept. */
  function RemoveInstancesWithId(c: Cluster, id: string): (r: Cluster)
    ensures forall x :: x in r.instances <==> x in c.instances && x.id != id
    ensures NoDuplicates(c.instances) ==> NoDuplicates(r.instances)
    decreases |c.instances|
  {
    if c.instances == [] then c
    else
      var rest := RemoveInstancesWithId(Cluster(c.instances[1..]), id);
      var x := c.instances[0];
      assert forall y :: y in c.instances <==> y == x || y in c.instances[1..];
      Cluster((if x.id == id then [] else [x]) + rest.instances)
  }

  /** Removing instances keeps the ids of the rest distinct. */
  lemma {:induction false} RemoveKeepsDistinctIds(c: Cluster, id: string)
    requires DistinctIds(c.instances)
    ensures DistinctIds(RemoveInstancesWithId(c, id).instances)
    decreases |c.instances|
  {
    if c.instances != [] {
      var tail := Cluster(c.instances[1..]);
      RemoveKeepsDistinctIds(tail, id);
      var rest := RemoveInstancesWithId(tail, id).instances;
      var x := c.instances[0];
      forall y | y in rest
        ensures y.id != x.id
      {
        var k :| 0 <= k < |tail.instances| && tail.instances[k] == y;
        assert c.instances[k + 1] == y;
      }
      var r := (if x.id == id then [] else [x]) + rest;
      assert RemoveInstancesWithId(c, id).instances == r;
      forall j, k | 0 <= j < k < |r|
        ensures r[j].id != r[k].id
      {
        if x.id != id && j == 0 {
          assert r[k] in rest;
        }
      }
    }
  }

  /** The result of asking for the single instance with a given id. */
  datatype Lookup = Found(instance: Instance) | NotFound | Ambiguous

  /** The one instance with the given id; no instance, or several
      different ones, are reported as such. */
  function InstanceWithId(c: Cluster, id: string): (r: Lookup)
    ensures r.NotFound? <==> forall x :: x in c.instances ==> x.id != id
    ensures r.Found? ==> forall x :: x in c.instances && x.id == id <==> x == r.instance
    ensures r.Ambiguous? ==> exists x, y :: x in c.instances && y in c.instances
                                          && x.id == id && y.id == id && x != y
  {
    var matching := InstancesWithId(c.instances, id);
    if |matching| == 0 then NotFound
    else if forall k :: 0 <= k < |matching| ==> matching[k] == matching[0] then
      assert forall x :: x in matching ==> x == matching[0];
      Found(matching[0])
    else
      var k :| 0 <= k < |matching| && matching[k] != matching[0];
      assert matching[0] in matching && matching[k] in matching;
      Ambiguous
  }
}
