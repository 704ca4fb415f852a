/** One publication: from endpoints and the previous contract to the next contract. */
module Generator {
  import opened Prelude
  import opened Names
  import opened Graphs
  import opened Numbering
  import opened Messages
  import opened MessageFacts

  // ---------------------------------------------------------------- contracts

  predicate EndsWith(value: string, suffix: string) {
    |suffix| <= |value| && value[|value| - |suffix|..] == suffix
  }

  /** A service: the package segment that its immutable id and name determine, and its name. */
  datatype Identity = Identity(segment: string, name: string)
  {
    /** The gRPC service name; a name without letters and digits has none. */
    function Service(): (r: string)
      ensures EndsWith(r, "Service")
      ensures Pascal(name).Some? ==> AlnumOnly(r)
      ensures Pascal(name).Some? ==>
        var base := Pascal(name).value;
        base <= r && |r| == |base| + (if EndsWith(base, "Service") then 0 else 7)
    {
      var base := if Pascal(name).Some? then Pascal(name).value else "";
      if EndsWith(base, "Service") then base
      else
        var r := base + "Service";
        assert r[|r| - 7..] == "Service";
        assert forall c | c in r :: c in base || c in "Service";
        r
    }
  }

  datatype Package = Versioned(segment: string, major: nat) | Foreign(name: string)

  datatype Version = Version(major: nat, minor: nat, patch: nat) {
    predicate Less(other: Version) {
      || major < other.major
      || (major == other.major && minor < other.minor)
      || (major == other.major && minor == other.minor && patch < other.patch)
    }
  }

  /** The rendered and compiled schema; its canonical bytes, hence its digest, are determined by it. */
  datatype Descriptor = Descriptor(
    package: Package,
    service: string,
    methods: seq<string>,
    messages: map<string, PreviousMessage>)

  datatype Contract = Contract(version: Version, descriptor: Descriptor)

  /** The result of generation, before protoc has seen it. */
  datatype Generated = Generated(
    version: Version,
    package: Package,
    service: string,
    methods: seq<string>,
    shapes: map<string, Shape>,
    breaking: bool)

  datatype Outcome = NotGenerated | Rejected(failure: Failure) | Done(generated: Generated)

  // ---------------------------------------------------------------- generation

  function OverGrpc(endpoints: seq<Endpoint>): seq<Endpoint> {
    if endpoints == [] then []
    else (if endpoints[0].overGrpc then [endpoints[0]] else []) + OverGrpc(endpoints[1..])
  }

  function PreviousMessageOf(previous: Option<Contract>, name: string): Option<PreviousMessage> {
    if previous.Some? && name in previous.value.descriptor.messages
    then Some(previous.value.descriptor.messages[name]) else None
  }

  ghost predicate Numberable(shapes: map<string, Shape>, previous: Option<Contract>) {
    forall n | n in shapes :: Assigned(shapes[n], PreviousMessageOf(previous, n)).Some?
  }

  ghost function Numbered(shapes: map<string, Shape>, previous: Option<Contract>): map<string, Shape>
    requires Numberable(shapes, previous)
  {
    map n | n in shapes :: Assigned(shapes[n], PreviousMessageOf(previous, n)).value
  }

  /** A response of the previous contract lacks the execution metadata. */
  predicate LacksExecution(methods: seq<string>, previous: Option<Contract>) {
    exists rpc | rpc in methods ::
      var message := PreviousMessageOf(previous, ResponseName(rpc));
      message.Some? && "execution" !in message.value.fields
  }

  ghost predicate SomeMessageBreaks(shapes: map<string, Shape>, previous: Option<Contract>) {
    exists n | n in shapes :: Breaks(shapes[n], PreviousMessageOf(previous, n))
  }

  predicate LosesMethod(methods: seq<string>, previous: Option<Contract>) {
    previous.Some? && exists rpc | rpc in previous.value.descriptor.methods :: rpc !in methods
  }

  /** The previous contract lives in another namespace than the one expected for its major version. */
  predicate LeavesNamespace(id: Identity, previous: Option<Contract>) {
    && previous.Some? && previous.value.version.major >= 1
    && (previous.value.descriptor.package != Versioned(id.segment, previous.value.version.major)
        || previous.value.descriptor.service != id.Service())
  }

  ghost predicate IsBreaking(id: Identity, p: Progress, previous: Option<Contract>) {
    || LacksExecution(p.methods, previous)
    || SomeMessageBreaks(p.table.messages, previous)
    || LosesMethod(p.methods, previous)
    || LeavesNamespace(id, previous)
  }

  function NextVersion(previous: Option<Contract>, breaking: bool): Version {
    if previous.None? || previous.value.version.major < 1 then Version(1, 0, 0)
    else if breaking then Version(previous.value.version.major + 1, 0, 0)
    else Version(previous.value.version.major, previous.value.version.minor + 1, 0)
  }

  ghost function Generate(id: Identity, endpoints: seq<Endpoint>, previous: Option<Contract>): Outcome {
    var grpc := OverGrpc(endpoints);
    if grpc == [] || exists e | e in grpc :: e.handWritten then NotGenerated
    else if Pascal(id.name).None? then Rejected(GenerationError)
    else match Build(grpc)
      case Err(f) => Rejected(f)
      case Ok(p) =>
        if !Numberable(p.table.messages, previous) then Rejected(GenerationError)
        else
          var breaking := IsBreaking(id, p, previous);
          var version := NextVersion(previous, breaking);
          Done(Generated(version, Versioned(id.segment, version.major), id.Service(), p.methods,
            Numbered(p.table.messages, previous), breaking))
  }

  // ---------------------------------------------------------------- compilation

  /** The values of the two enums; protobuf scopes them beside the messages. */
  const ENUM_VALUES := {
    "PYSCRIPTS_EXECUTION_STATUS_UNSPECIFIED", "PYSCRIPTS_EXECUTION_STATUS_SUCCEEDED", "PYSCRIPTS_EXECUTION_STATUS_FAILED",
    "PYSCRIPTS_LOG_STREAM_UNSPECIFIED", "PYSCRIPTS_LOG_STREAM_STDOUT", "PYSCRIPTS_LOG_STREAM_STDERR" }

  /** A name that the rendered source gives to an enum or to one of its values. */
  predicate TakenName(name: string) {
    EnumName(name) || name in ENUM_VALUES
  }

  /** Acceptance of one message: its name is free and its fields obey the rules. */
  ghost predicate MessageAccepted(shapes: map<string, Shape>, n: string)
    requires n in shapes
  {
    && !TakenName(n)
    && DistinctNames(shapes[n].fields)
    && JsonApart(FieldNames(shapes[n].fields))
    && WellNumbered(Compiled(shapes[n]))
    && forall f | f in shapes[n].fields :: Resolves(shapes.Keys, f.typeName)
  }

  /**
   The types of an rpc are looked up in the service before the package, and a
   method found there is not passed over although it is no message.
   */
  predicate RpcTypesVisible(methods: seq<string>) {
    forall rpc | rpc in methods :: RequestName(rpc) !in methods && ResponseName(rpc) !in methods
  }

  /** The language guide's rules, as protoc enforces them on the rendered source. */
  ghost predicate ProtocAccepts(g: Generated) {
    && Distinct(g.methods) && RpcTypesVisible(g.methods)
    && g.service !in g.shapes && !TakenName(g.service)
    && (forall rpc | rpc in g.methods :: RequestName(rpc) in g.shapes && ResponseName(rpc) in g.shapes)
    && forall n | n in g.shapes :: MessageAccepted(g.shapes, n)
  }

  ghost function CompiledAll(shapes: map<string, Shape>): map<string, PreviousMessage>
    requires forall n | n in shapes :: MessageAccepted(shapes, n)
  {
    map n | n in shapes :: assert MessageAccepted(shapes, n); Compiled(shapes[n])
  }

  ghost function Compile(g: Generated): Option<Descriptor> {
    if ProtocAccepts(g) then Some(Descriptor(g.package, g.service, g.methods, CompiledAll(g.shapes))) else None
  }

  /** The version is kept when the compiled schema did not change. */
  ghost function Prepare(id: Identity, endpoints: seq<Endpoint>, previous: Option<Contract>): Option<Contract> {
    match Generate(id, endpoints, previous)
    case NotGenerated => None
    case Rejected(_) => None
    case Done(g) =>
      match Compile(g)
      case None => None
      case Some(d) =>
        Some(Contract(if previous.Some? && previous.value.descriptor == d then previous.value.version else g.version, d))
  }

  // ---------------------------------------------------------------- compiled descriptors of this generator

  ghost function Refers(d: Descriptor): Graph {
    map n | n in d.messages :: set f | f in d.messages[n].fields :: d.messages[n].fields[f].sig.0
  }

  ghost predicate WellFormed(d: Descriptor) {
    forall n | n in d.messages :: WellNumbered(d.messages[n])
  }

  ghost predicate UnderMethod(d: Descriptor, rpc: string, n: string) {
    Reaches(Refers(d), RequestName(rpc), n) || Reaches(Refers(d), ResponseName(rpc), n)
  }

  /** The message has a name of its own, its types resolve, and a method reaches it. */
  ghost predicate MessageCoherent(d: Descriptor, n: string)
    requires n in d.messages
  {
    && !EnumName(n) && !ScalarName(n)
    && (forall f | f in d.messages[n].fields :: Resolves(d.messages.Keys, d.messages[n].fields[f].sig.0))
    && exists rpc | rpc in d.methods :: UnderMethod(d, rpc, n)
  }

  /** The method's messages are there, and its response carries the execution metadata. */
  ghost predicate MethodCoherent(d: Descriptor, rpc: string) {
    && RequestName(rpc) in d.messages && ResponseName(rpc) in d.messages
    && "execution" in d.messages[ResponseName(rpc)].fields
  }

  ghost predicate Coherent(d: Descriptor) {
    && Distinct(d.methods)
    && (forall n | n in d.messages :: MessageCoherent(d, n))
    && (forall rpc | rpc in d.methods :: MethodCoherent(d, rpc))
  }
}
