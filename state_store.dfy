/**
 * The cluster state store: the text record a cluster is saved as, how it is
 * read back, and a store object holding one such record.
 *
 * Record format: one line per instance, each line ending in a newline, the
 * fields separated by a tab in the order id, roles, public address, private
 * address, the roles joined by commas. Nothing is escaped.
 */
module StateStore {
  import opened Wrappers
  import opened Text
  import opened ClusterModel

  /** Why a record could not be loaded: there is none, or a line of it has
      fewer than four fields. */
  datatype StoreError = NoRecord | MalformedLine(line: string)

  /** Appending a Java string to a StringBuilder writes "null" for null. */
  function AddressText(address: Option<string>): string
  {
    match address
    case Some(a) => a
    case None => "null"
  }

  /** The record line of one instance, without its terminating newline. */
  function Line(i: Instance): string
  {
    i.id + "\t" + Join(i.roles, ',') + "\t" + AddressText(i.publicIp) + "\t" + AddressText(i.privateIp)
  }

  /** The record of a cluster's instances, in iteration order. */
  function Serialized(instances: seq<Instance>): string
  {
    if instances == [] then "" else Line(instances[0]) + "\n" + Serialized(instances[1..])
  }

  /** One non-blank record line read back: the first four tab-separated
      fields are the id, the roles, the public and the private address;
      further fields are ignored. Credentials come from the specification
      and there is no provider metadata. */
  function ParseLine(spec: ClusterSpec, line: string): Result<Instance, StoreError>
  {
    var fields := Split(line, '\t');
    if |fields| < 4 then Failure(MalformedLine(line))
    else
      var roles := AddAll([], Split(fields[1], ','));
      Success(Instance(SpecCredentials(spec), roles, Some(fields[2]), Some(fields[3]), fields[0], None))
  }

  /** The remaining lines read into the instances read so far; blank lines
      are skipped and the first malformed line fails the whole record. */
  function ParseLines(spec: ClusterSpec, lines: seq<string>, acc: seq<Instance>): Result<seq<Instance>, StoreError>
    decreases |lines|
  {
    if lines == [] then Success(acc)
    else if IsBlank(lines[0]) then ParseLines(spec, lines[1..], acc)
    else
      match ParseLine(spec, lines[0])
      case Failure(e) => Failure(e)
      case Success(instance) => ParseLines(spec, lines[1..], Add(acc, instance))
  }

  /** A record's text read back as a cluster. */
  function Unserialized(spec: ClusterSpec, content: string): Result<Cluster, StoreError>
  {
    match ParseLines(spec, Split(content, '\n'), [])
    case Failure(e) => Failure(e)
    case Success(instances) => Success(Cluster(instances))
  }

  /** What loading a stored record gives. */
  function Loaded(spec: ClusterSpec, record: Option<string>): Result<Cluster, StoreError>
  {
    match record
    case None => Failure(NoRecord)
    case Some(content) => Unserialized(spec, content)
  }

  /** What loading gives, with every failure turned into the empty cluster. */
  function LoadOrEmpty(spec: ClusterSpec, record: Option<string>): Cluster
  {
    match Loaded(spec, record)
    case Success(c) => c
    case Failure(_) => EmptyCluster()
  }

  // ---------------------------------------------------------------------
  // What reading a record back preserves

  /** A field that neither a tab nor a newline cuts short. */
  predicate FieldText(s: string)
  {
    '\t' !in s && '\n' !in s
  }

  /** An instance whose line reads back as itself: its id is not blank,
      no field holds a tab or a newline, no role holds a comma and it has at
      least one role (an empty role set is written as "", which reads back
      as the one role ""). */
  predicate RecordSafe(i: Instance)
  {
    && FieldText(i.id) && !IsBlank(i.id)
    && |i.roles| >= 1 && NoDuplicates(i.roles)
    && (forall k :: 0 <= k < |i.roles| ==> FieldText(i.roles[k]) && ',' !in i.roles[k])
    && FieldText(AddressText(i.publicIp)) && FieldText(AddressText(i.privateIp))
  }

  /** An instance as reading its line back rebuilds it: same id, roles and
      address texts, the specification's credentials, no provider metadata. */
  function Restored(spec: ClusterSpec, i: Instance): Instance
  {
    Instance(SpecCredentials(spec), i.roles, Some(AddressText(i.publicIp)), Some(AddressText(i.privateIp)), i.id, None)
  }

  function RestoredAll(spec: ClusterSpec, instances: seq<Instance>): (r: seq<Instance>)
    ensures |r| == |instances|
  {
    if instances == [] then [] else [Restored(spec, instances[0])] + RestoredAll(spec, instances[1..])
  }

  lemma {:induction false} RestoredAllAt(spec: ClusterSpec, instances: seq<Instance>, k: nat)
    requires k < |instances|
    ensures RestoredAll(spec, instances)[k] == Restored(spec, instances[k])
  {
    if k > 0 {
      RestoredAllAt(spec, instances[1..], k - 1);
    }
  }

  /** Restoring is idempotent and keeps an instance record-safe. */
  lemma RestoredIsStable(spec: ClusterSpec, i: Instance)
    ensures Restored(spec, Restored(spec, i)) == Restored(spec, i)
    ensures RecordSafe(i) ==> RecordSafe(Restored(spec, i))
  {
  }

  /** Every instance read back from a record is already in restored form,
      and restoring instances in that form changes nothing. */
  lemma {:induction false} RestoredAllStable(spec: ClusterSpec, instances: seq<Instance>)
    ensures forall x :: x in RestoredAll(spec, instances) ==> x == Restored(spec, x)
    ensures (forall x :: x in instances ==> x == Restored(spec, x)) ==> RestoredAll(spec, instances) == instances
  {
    if instances != [] {
      RestoredAllStable(spec, instances[1..]);
      RestoredIsStable(spec, instances[0]);
      assert forall x :: x in instances[1..] ==> x in instances;
      assert instances == [instances[0]] + instances[1..];
    }
  }

  /** Restoring keeps record-safety and distinct ids. */
  lemma {:induction false} RestoredAllSafe(spec: ClusterSpec, instances: seq<Instance>)
    requires forall k :: 0 <= k < |instances| ==> RecordSafe(instances[k])
    requires DistinctIds(instances)
    ensures forall k :: 0 <= k < |instances| ==> RecordSafe(RestoredAll(spec, instances)[k])
    ensures DistinctIds(RestoredAll(spec, instances))
  {
    forall k | 0 <= k < |instances|
      ensures RestoredAll(spec, instances)[k] == Restored(spec, instances[k])
      ensures RecordSafe(RestoredAll(spec, instances)[k])
    {
      RestoredAllAt(spec, instances, k);
      RestoredIsStable(spec, instances[k]);
    }
  }

  /** A line splits on tabs into exactly its four fields, in order. */
  lemma LineFields(i: Instance)
    requires '\t' !in i.id && '\t' !in AddressText(i.publicIp) && '\t' !in AddressText(i.privateIp)
    requires forall k :: 0 <= k < |i.roles| ==> '\t' !in i.roles[k]
    ensures Split(Line(i), '\t') == [i.id, Join(i.roles, ','), AddressText(i.publicIp), AddressText(i.privateIp)]
  {
    var roles, pub, priv := Join(i.roles, ','), AddressText(i.publicIp), AddressText(i.privateIp);
    JoinAvoids(i.roles, ',', '\t');
    assert Line(i) == i.id + ['\t'] + (roles + ['\t'] + (pub + ['\t'] + priv));
    SplitAtSeparator(i.id, roles + ['\t'] + (pub + ['\t'] + priv), '\t');
    SplitAtSeparator(roles, pub + ['\t'] + priv, '\t');
    SplitAtSeparator(pub, priv, '\t');
    SplitWithoutSeparator(priv, '\t');
  }

  /** A record-safe instance's line is not blank and reads back as the
      instance restored. */
  lemma ParseLineOfLine(spec: ClusterSpec, i: Instance)
    requires RecordSafe(i)
    ensures !IsBlank(Line(i)) && '\n' !in Line(i)
    ensures ParseLine(spec, Line(i)) == Success(Restored(spec, i))
  {
    LineShape(i);
    LineFields(i);
    var fields := Split(Line(i), '\t');
    SplitJoin(i.roles, ',');
    assert Split(fields[1], ',') == i.roles;
    AddAllFresh([], i.roles);
    assert [] + i.roles == i.roles;
  }

  /** A line starts with its id and holds a newline only if a field does. */
  lemma LineShape(i: Instance)
    requires !IsBlank(i.id) && '\n' !in i.id
    requires forall k :: 0 <= k < |i.roles| ==> '\n' !in i.roles[k]
    requires '\n' !in AddressText(i.publicIp) && '\n' !in AddressText(i.privateIp)
    ensures !IsBlank(Line(i)) && '\n' !in Line(i)
  {
    var rest := "\t" + Join(i.roles, ',') + "\t" + AddressText(i.publicIp) + "\t" + AddressText(i.privateIp);
    assert Line(i) == i.id + rest;
    PrefixNotBlank(i.id, rest);
    JoinAvoids(i.roles, ',', '\n');
  }

  /** Serializing N instances gives N lines, the k-th being the k-th
      instance's line, each terminated by a newline; nothing follows the
      last newline, and only the empty cluster serializes to "". */
  lemma {:induction false} SerializedLines(instances: seq<Instance>)
    requires forall k :: 0 <= k < |instances| ==> '\n' !in Line(instances[k])
    ensures var lines := Split(Serialized(instances), '\n');
      && |lines| == |instances| + 1
      && (forall k :: 0 <= k < |instances| ==> lines[k] == Line(instances[k]))
      && lines[|instances|] == ""
    ensures Serialized(instances) == "" <==> instances == []
  {
    if instances != [] {
      SerializedLines(instances[1..]);
      SplitAtSeparator(Line(instances[0]), Serialized(instances[1..]), '\n');
      assert Serialized(instances) == Line(instances[0]) + ['\n'] + Serialized(instances[1..]);
    }
  }

  /** Reading the first line of a serialized record adds the first
      instance, restored, to the instances read so far. */
  lemma ParseFirstLine(spec: ClusterSpec, instances: seq<Instance>, acc: seq<Instance>)
    requires instances != [] && RecordSafe(instances[0])
    requires forall j :: 0 <= j < |acc| ==> acc[j].id != instances[0].id
    ensures ParseLines(spec, Split(Serialized(instances), '\n'), acc)
         == ParseLines(spec, Split(Serialized(instances[1..]), '\n'), acc + [Restored(spec, instances[0])])
  {
    var i := instances[0];
    ParseLineOfLine(spec, i);
    assert Serialized(instances) == Line(i) + ['\n'] + Serialized(instances[1..]);
    SplitAtSeparator(Line(i), Serialized(instances[1..]), '\n');
    var lines := Split(Serialized(instances), '\n');
    assert lines[0] == Line(i) && lines[1..] == Split(Serialized(instances[1..]), '\n');
  }

  /** Regrouping a concatenation; kept as a lemma so that the proofs that
      use it need not re-derive it in their larger contexts. */
  lemma AppendAssociative<T>(a: seq<T>, b: seq<T>, c: seq<T>)
    ensures a + b + c == a + (b + c)
  {
  }

  lemma ParseEmptyRecord(spec: ClusterSpec, instances: seq<Instance>, acc: seq<Instance>)
    requires instances == []
    ensures ParseLines(spec, Split(Serialized(instances), '\n'), acc) == Success(acc + RestoredAll(spec, instances))
  {
    BlankLinesSkipped(spec, [""], acc);
    assert acc + RestoredAll(spec, instances) == acc;
  }

  lemma {:induction false} ParseSerialized(spec: ClusterSpec, instances: seq<Instance>, acc: seq<Instance>)
    requires forall k :: 0 <= k < |instances| ==> RecordSafe(instances[k])
    requires DistinctIds(instances)
    requires forall j, k :: 0 <= j < |acc| && 0 <= k < |instances| ==> acc[j].id != instances[k].id
    ensures ParseLines(spec, Split(Serialized(instances), '\n'), acc) == Success(acc + RestoredAll(spec, instances))
  {
    if instances == [] {
      ParseEmptyRecord(spec, instances, acc);
    } else {
      var i := instances[0];
      assert forall j :: 0 <= j < |acc| ==> acc[j].id != i.id;
      ParseFirstLine(spec, instances, acc);
      var acc', rest := acc + [Restored(spec, i)], instances[1..];
      forall j, k | 0 <= j < |acc'| && 0 <= k < |rest|
        ensures acc'[j].id != rest[k].id
      {
        assert rest[k] == instances[k + 1];
        if j == |acc| {
          assert acc'[j].id == instances[0].id;
        }
      }
      ParseSerialized(spec, rest, acc');
      assert RestoredAll(spec, instances) == [Restored(spec, i)] + RestoredAll(spec, rest);
      AppendAssociative(acc, [Restored(spec, i)], RestoredAll(spec, rest));
    }
  }

  /** Round trip: reading back the record of a cluster whose instances are
      record-safe and have distinct ids gives the same instances in the same
      order, with the same ids, roles and address texts; the credentials are
      the specification's and the provider metadata is gone. */
  lemma UnserializeSerialize(spec: ClusterSpec, instances: seq<Instance>)
    requires forall k :: 0 <= k < |instances| ==> RecordSafe(instances[k])
    requires DistinctIds(instances)
    ensures Unserialized(spec, Serialized(instances)) == Success(Cluster(RestoredAll(spec, instances)))
    ensures forall k :: 0 <= k < |instances| ==>
      var r := Unserialized(spec, Serialized(instances)).value.instances[k];
      && r.id == instances[k].id && r.roles == instances[k].roles
      && (instances[k].publicIp.Some? ==> r.publicIp == instances[k].publicIp)
      && (instances[k].privateIp.Some? ==> r.privateIp == instances[k].privateIp)
  {
    ParseSerialized(spec, instances, []);
    assert [] + RestoredAll(spec, instances) == RestoredAll(spec, instances);
    forall k | 0 <= k < |instances|
      ensures RestoredAll(spec, instances)[k] == Restored(spec, instances[k])
    {
      RestoredAllAt(spec, instances, k);
    }
  }

  /** An absent address, public or private, is written as the text "null"
      and reads back as that text, not as an absent address. */
  lemma AbsentAddressReadsBackAsNullText(spec: ClusterSpec, i: Instance)
    requires RecordSafe(i)
    ensures ParseLine(spec, Line(i)).Success?
    ensures i.publicIp.None? ==> ParseLine(spec, Line(i)).value.publicIp == Some("null")
    ensures i.privateIp.None? ==> ParseLine(spec, Line(i)).value.privateIp == Some("null")
  {
    ParseLineOfLine(spec, i);
  }

  /** An instance without roles is written with an empty roles field, which
      reads back as the one role "". */
  lemma EmptyRoleSetReadsBackAsEmptyName(spec: ClusterSpec, i: Instance)
    requires FieldText(i.id) && !IsBlank(i.id) && i.roles == []
    requires FieldText(AddressText(i.publicIp)) && FieldText(AddressText(i.privateIp))
    ensures ParseLine(spec, Line(i)).Success?
    ensures ParseLine(spec, Line(i)).value.roles == [""]
  {
    LineShape(i);
    LineFields(i);
    assert Split(Line(i), '\t')[1] == "";
    assert Split("", ',') == [""];
    assert AddAll([], [""]) == AddAll([""], []);
  }

  /** The roles read from a line are the comma-separated pieces of its
      second field as a set: duplicates collapse, order of first occurrence
      is kept, and nothing else is added. */
  lemma RolesFieldIsInsertionOrderedSet(spec: ClusterSpec, line: string)
    requires ParseLine(spec, line).Success?
    ensures var pieces := Split(Split(line, '\t')[1], ',');
      var roles := ParseLine(spec, line).value.roles;
      && NoDuplicates(roles)
      && (forall r :: r in roles <==> r in pieces)
      && (forall p, q :: 0 <= p < q < |roles| ==> FirstIndex(pieces, roles[p]) < FirstIndex(pieces, roles[q]))
  {
    var pieces := Split(Split(line, '\t')[1], ',');
    AddAllContents([], pieces);
    AddAllOrder([], pieces);
  }

  /** Only the first four fields of a line are read. */
  lemma ExtraFieldsIgnored(spec: ClusterSpec, fields: seq<string>, extra: seq<string>)
    requires |fields| == 4
    requires forall k :: 0 <= k < |fields| ==> '\t' !in fields[k]
    requires forall k :: 0 <= k < |extra| ==> '\t' !in extra[k]
    ensures ParseLine(spec, Join(fields + extra, '\t')) == ParseLine(spec, Join(fields, '\t'))
    ensures ParseLine(spec, Join(fields, '\t')).Success?
  {
    SplitJoin(fields, '\t');
    SplitJoin(fields + extra, '\t');
    assert (fields + extra)[..4] == fields;
  }

  lemma {:induction false} BlankLinesSkipped(spec: ClusterSpec, lines: seq<string>, acc: seq<Instance>)
    requires forall k :: 0 <= k < |lines| ==> IsBlank(lines[k])
    ensures ParseLines(spec, lines, acc) == Success(acc)
    decreases |lines|
  {
    if lines != [] {
      BlankLinesSkipped(spec, lines[1..], acc);
    }
  }

  /** A blank line anywhere among the others adds nothing: reading the
      lines with it gives what reading them without it gives. */
  lemma {:induction false} BlankLineSkipped(spec: ClusterSpec, before: seq<string>, blank: string, after: seq<string>, acc: seq<Instance>)
    requires IsBlank(blank)
    ensures ParseLines(spec, before + [blank] + after, acc) == ParseLines(spec, before + after, acc)
    decreases |before|
  {
    var lines := before + [blank] + after;
    if before == [] {
      assert lines == [blank] + after && lines[1..] == after && before + after == after;
    } else {
      assert lines[0] == before[0] && lines[1..] == before[1..] + [blank] + after;
      assert (before + after)[0] == before[0] && (before + after)[1..] == before[1..] + after;
      if IsBlank(before[0]) {
        BlankLineSkipped(spec, before[1..], blank, after, acc);
      } else if ParseLine(spec, before[0]).Success? {
        BlankLineSkipped(spec, before[1..], blank, after, Add(acc, ParseLine(spec, before[0]).value));
      }
    }
  }

  /** Nothing in the format keeps ids unique: the record of two instances
      with the same id and different roles reads back as both of them. */
  lemma DuplicateIdsReadBackTwice(spec: ClusterSpec, x: Instance, y: Instance)
    requires RecordSafe(x) && RecordSafe(y)
    requires x.id == y.id && x.roles != y.roles
    ensures Unserialized(spec, Serialized([x, y])) == Success(Cluster([Restored(spec, x), Restored(spec, y)]))
  {
    assert [x, y][1..] == [y] && [y][1..] == [];
    ParseLineOfLine(spec, x);
    ParseLineOfLine(spec, y);
    SerializedLines([x, y]);
    var lines := Split(Serialized([x, y]), '\n');
    var rx, ry := Restored(spec, x), Restored(spec, y);
    assert lines[0] == Line(x) && lines[1..][0] == Line(y);
    assert lines[1..][1..] == [""];
    assert Add([], rx) == [rx];
    assert rx.roles != ry.roles;
    assert Add([rx], ry) == [rx, ry];
    assert ParseLines(spec, lines, []) == ParseLines(spec, lines[1..], [rx]);
    assert ParseLines(spec, lines[1..], [rx]) == ParseLines(spec, [""], [rx, ry]);
  }

  /** Empty or all-whitespace content reads back as the empty cluster. */
  lemma BlankContentIsEmptyCluster(spec: ClusterSpec, content: string)
    requires IsBlank(content)
    ensures Unserialized(spec, content) == Success(EmptyCluster())
  {
    SplitBlank(content, '\n');
    BlankLinesSkipped(spec, Split(content, '\n'), []);
  }

  lemma {:induction false} MalformedLineFailsLines(spec: ClusterSpec, lines: seq<string>, acc: seq<Instance>, k: nat)
    requires k < |lines| && !IsBlank(lines[k]) && |Split(lines[k], '\t')| < 4
    ensures ParseLines(spec, lines, acc).Failure?
    decreases |lines|
  {
    if k > 0 && (IsBlank(lines[0]) || ParseLine(spec, lines[0]).Success?) {
      var acc' := if IsBlank(lines[0]) then acc else Add(acc, ParseLine(spec, lines[0]).value);
      MalformedLineFailsLines(spec, lines[1..], acc', k - 1);
    }
  }

  /** One non-blank line with fewer than four fields, anywhere in the
      content, makes reading the whole record fail. */
  lemma MalformedLineFails(spec: ClusterSpec, content: string, k: nat)
    requires k < |Split(content, '\n')|
    requires !IsBlank(Split(content, '\n')[k]) && |Split(Split(content, '\n')[k], '\t')| < 4
    ensures Unserialized(spec, content).Failure?
  {
    MalformedLineFailsLines(spec, Split(content, '\n'), [], k);
  }

  lemma {:induction false} ParsedInstancesCarrySpecCredentials(spec: ClusterSpec, lines: seq<string>, acc: seq<Instance>)
    requires forall x :: x in acc ==> x.credentials == SpecCredentials(spec) && x.nodeMetadata.None?
    requires NoDuplicates(acc)
    ensures ParseLines(spec, lines, acc).Success? ==>
      var r := ParseLines(spec, lines, acc).value;
      && NoDuplicates(r)
      && forall x :: x in r ==> x.credentials == SpecCredentials(spec) && x.nodeMetadata.None?
    decreases |lines|
  {
    if lines != [] {
      if IsBlank(lines[0]) {
        ParsedInstancesCarrySpecCredentials(spec, lines[1..], acc);
      } else if ParseLine(spec, lines[0]).Success? {
        ParsedInstancesCarrySpecCredentials(spec, lines[1..], Add(acc, ParseLine(spec, lines[0]).value));
      }
    }
  }

  /** Every instance read from any record carries the specification's
      cluster user and private key and no provider metadata, and no
      instance is read twice. */
  lemma UnserializedInstancesCarrySpecCredentials(spec: ClusterSpec, content: string)
    ensures Unserialized(spec, content).Success? ==>
      var c := Unserialized(spec, content).value;
      && NoDuplicates(c.instances)
      && forall x :: x in c.instances ==> x.credentials == SpecCredentials(spec) && x.nodeMetadata.None?
  {
    ParsedInstancesCarrySpecCredentials(spec, Split(content, '\n'), []);
  }

  // ---------------------------------------------------------------------
  // The store

  /** A store holding the record of one cluster specification; `record` is
      None when nothing is stored. */
  class ClusterStateStore {
    const spec: ClusterSpec
    var record: Option<string>

    constructor (spec: ClusterSpec, record: Option<string>)
      ensures this.spec == spec && this.record == record
    {
      this.spec := spec;
      this.record := record;
    }

    /** Writes the instances one line each, in iteration order. */
    method Serialize(cluster: Cluster) returns (s: string)
      ensures s == Serialized(cluster.instances)
    {
      var instances := cluster.instances;
      s := "";
      var i := 0;
      while i < |instances|
        invariant 0 <= i <= |instances|
        invariant s + Serialized(instances[i..]) == Serialized(instances)
      {
        var instance := instances[i];
        var roles := Join(instance.roles, ',');
        var line := instance.id + "\t" + roles + "\t" + AddressText(instance.publicIp) + "\t" + AddressText(instance.privateIp);
        assert line == Line(instance);
        var entry := line + "\n";
        assert instances[i..][1..] == instances[i + 1..];
        assert Serialized(instances[i..]) == entry + Serialized(instances[i + 1..]);
        AppendAssociative(s, entry, Serialized(instances[i + 1..]));
        s := s + entry;
        i := i + 1;
      }
      assert instances[i..] == [];
    }

    /** Reads a record's text back, line by line. */
    method Unserialize(spec: ClusterSpec, content: string) returns (r: Result<Cluster, StoreError>)
      ensures r == Unserialized(spec, content)
    {
      var lines := Split(content, '\n');
      var instances: seq<Instance> := [];
      var i := 0;
      while i < |lines|
        invariant 0 <= i <= |lines|
        invariant ParseLines(spec, lines[i..], instances) == ParseLines(spec, lines, [])
      {
        var line := lines[i];
        assert lines[i..][0] == line && lines[i..][1..] == lines[i + 1..];
        if !IsBlank(line) {
          var fields := Split(line, '\t');
          if |fields| < 4 {
            return Failure(MalformedLine(line));
          }
          var id := fields[0];
          var roles := AddAll([], Split(fields[1], ','));
          var publicAddress := fields[2];
          var privateAddress := fields[3];
          instances := Add(instances, Instance(SpecCredentials(spec), roles, Some(publicAddress), Some(privateAddress), id, None));
        }
        i := i + 1;
      }
      assert lines[i..] == [];
      r := Success(Cluster(instances));
    }

    /** Reads the stored record; fails when there is none or it is malformed. */
    method Load() returns (r: Result<Cluster, StoreError>)
      ensures record.None? ==> r == Failure(NoRecord)
      ensures record.Some? ==> r == Unserialized(spec, record.value)
    {
      if record.None? {
        return Failure(NoRecord);
      }
      r := Unserialize(spec, record.value);
    }

    /** Loads the record, or gives the empty cluster on any failure; never fails. */
    method TryLoadOrEmpty() returns (c: Cluster)
      ensures Loaded(spec, record).Success? ==> c == Loaded(spec, record).value
      ensures Loaded(spec, record).Failure? ==> c == EmptyCluster()
    {
      var loaded := Load();
      match loaded
      case Success(cluster) => c := cluster;
      case Failure(_) => c := EmptyCluster();
    }

    /** Replaces the stored record with the cluster's record. */
    method Save(cluster: Cluster)
      modifies this
      ensures record == Some(Serialized(cluster.instances))
    {
      var content := Serialize(cluster);
      record := Some(content);
    }

    /** Removes the stored record; removing an absent record is no error. */
    method Destroy()
      modifies this
      ensures record == None
    {
      record := None;
    }
  }
}
