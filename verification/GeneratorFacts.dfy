/** What one publication guarantees. */
module GeneratorFacts {
  import opened Prelude
  import opened Names
  import opened Graphs
  import opened Numbering
  import opened Messages
  import opened MessageFacts
  import opened EndpointFacts
  import opened Symbols
  import opened Generator

  /** The previous contract, if any, was accepted by protoc. */
  ghost predicate PreviousOk(previous: Option<Contract>) {
    previous.Some? ==> WellFormed(previous.value.descriptor)
  }

  lemma PreviousMessageOk(previous: Option<Contract>, n: string)
    requires PreviousOk(previous)
    ensures WellNumbered(OrEmpty(PreviousMessageOf(previous, n)))
  {
  }

  predicate NoEmptyResponse(endpoints: seq<Endpoint>) {
    forall e | e in OverGrpc(endpoints) :: !EmptyResponse(e)
  }

  /**
   What one schema must meet: no Struct response without properties, no two
   fields of a message with one JSON name, no message called like the service.
   */
  predicate SchemaCompiles(id: Identity, e: Endpoint) {
    !EmptyResponse(e) && JsonFriendlyEndpoint(e) && id.Service() !in DerivedNamesOf(e)
  }

  /** The method of one endpoint is called like the request or the response of the other. */
  predicate Shadows(f: Endpoint, e: Endpoint) {
    && Pascal(e.id).Some?
    && (Pascal(f.id) == Some(RequestName(Pascal(e.id).value)) || Pascal(f.id) == Some(ResponseName(Pascal(e.id).value)))
  }

  /** What a caller can check before publishing: the schemas one by one, and the ids against each other. */
  predicate Compilable(id: Identity, endpoints: seq<Endpoint>) {
    && (forall e | e in OverGrpc(endpoints) :: SchemaCompiles(id, e))
    && (forall e, f | e in OverGrpc(endpoints) && f in OverGrpc(endpoints) :: !Shadows(f, e))
  }

  /** An rpc's types are visible exactly when no endpoint shadows another. */
  lemma VisibleExactly(endpoints: seq<Endpoint>, methods: seq<string>)
    requires MethodsFollow([], methods, endpoints)
    ensures RpcTypesVisible(methods) <==> forall e, f | e in endpoints && f in endpoints :: !Shadows(f, e)
  {
    hide Pascal, RequestName, ResponseName;
    MethodsNamed(endpoints, methods);
    if e, f :| e in endpoints && f in endpoints && Shadows(f, e) {
      assert Pascal(e.id).value in methods && Pascal(f.id).value in methods;
    }
    if rpc :| rpc in methods && (RequestName(rpc) in methods || ResponseName(rpc) in methods) {
      var e := NamedBy(endpoints, methods, rpc);
      var f := NamedBy(endpoints, methods, if RequestName(rpc) in methods then RequestName(rpc) else ResponseName(rpc));
      assert Shadows(f, e);
    }
  }

  lemma MethodsNamed(endpoints: seq<Endpoint>, methods: seq<string>)
    requires MethodsFollow([], methods, endpoints)
    ensures forall e | e in endpoints :: Pascal(e.id).Some? && Pascal(e.id).value in methods
  {
    hide Pascal;
    var none: seq<string> := [];
    forall e | e in endpoints ensures Pascal(e.id).Some? && Pascal(e.id).value in methods {
      var i :| 0 <= i < |endpoints| && endpoints[i] == e;
      assert Pascal(endpoints[i].id) == Some(methods[|none| + i]);
    }
  }

  lemma NamedBy(endpoints: seq<Endpoint>, methods: seq<string>, rpc: string) returns (e: Endpoint)
    requires MethodsFollow([], methods, endpoints) && rpc in methods
    ensures e in endpoints && Pascal(e.id) == Some(rpc)
  {
    hide Pascal;
    var none: seq<string> := [];
    var i :| 0 <= i < |methods| && methods[i] == rpc;
    assert Pascal(endpoints[i].id) == Some(methods[|none| + i]);
    e := endpoints[i];
  }

  lemma {:induction false} OverGrpcKeeps(endpoints: seq<Endpoint>)
    requires UniqueIds(endpoints)
    ensures UniqueIds(OverGrpc(endpoints))
    ensures forall e :: e in OverGrpc(endpoints) <==> e in endpoints && e.overGrpc
  {
    if endpoints != [] {
      OverGrpcKeeps(endpoints[1..]);
      IdsSplit(endpoints);
      assert endpoints == [endpoints[0]] + endpoints[1..];
      forall e | e in OverGrpc(endpoints[1..]) ensures e.id in Ids(endpoints[1..]) {
      }
      if endpoints[0].overGrpc {
        var r := OverGrpc(endpoints[1..]);
        assert OverGrpc(endpoints) == [endpoints[0]] + r;
        forall i | 0 <= i < |r| ensures r[i].id != endpoints[0].id {
          assert r[i] in r;
        }
      }
    }
  }

  /** The construction behind a generated contract. */
  lemma TableOf(id: Identity, endpoints: seq<Endpoint>, previous: Option<Contract>) returns (p: Progress)
    requires Generate(id, endpoints, previous).Done? && UniqueIds(endpoints) && PreviousOk(previous)
    ensures var g := Generate(id, endpoints, previous).generated;
      && Build(OverGrpc(endpoints)) == Ok(p)
      && g.methods == p.methods && g.breaking == IsBreaking(id, p, previous)
      && g.version == NextVersion(previous, g.breaking) && g.package == Versioned(id.segment, g.version.major)
      && g.service == id.Service()
      && Numberable(p.table.messages, previous) && g.shapes == Numbered(p.table.messages, previous)
    ensures ProgressOk(p, Ids(OverGrpc(endpoints)))
    ensures OverGrpc(endpoints) != [] && MethodsFollow([], p.methods, OverGrpc(endpoints))
    ensures Tidy(p.table) <==> NoEmptyResponse(endpoints)
  {
    hide ProgressOk, Assigned, Tidy, Build, IsBreaking, NextVersion;
    p := Build(OverGrpc(endpoints)).value;
    OverGrpcKeeps(endpoints);
    BuildSound(OverGrpc(endpoints));
  }

  /** Every message of a finished table can be numbered by the rules of one message. */
  lemma TableAssignable(p: Progress, ids: set<string>, previous: Option<Contract>, n: string)
    requires ProgressOk(p, ids) && PreviousOk(previous) && n in p.table.messages
    ensures Unnumbered(p.table.messages[n].fields)
    ensures DistinctNames(p.table.messages[n].fields) ==> Assignable(p.table.messages[n], PreviousMessageOf(previous, n))
    ensures !EnumName(n) && !ScalarName(n)
    ensures forall s | s in TypesOf(p.table.messages[n].fields) :: Resolves(p.table.messages.Keys, s)
  {
    hide Rooted, OwnedBy, RootsOk, HasExecution, Distinct, DistinctNames, WellNumbered, EnumName;
    PreviousMessageOk(previous, n);
    TableNames(p.table, n);
    TypesResolve(p.table, n);
    assert EntryOk(n, p.table.origins[n], p.table.messages[n]);
  }

  /** A message and its numbered form. */
  ghost predicate NumberedFrom(shape: Shape, m: PreviousMessage) {
    && WellNumbered(m)
    && m.fields.Keys == FieldNames(shape.fields)
    && (forall f | f in shape.fields :: f.name in m.fields && m.fields[f.name].sig == f.Sig())
  }

  lemma CompiledKeys(shape: Shape)
    requires DistinctNames(shape.fields)
    ensures Compiled(shape).fields.Keys == FieldNames(shape.fields)
  {
  }

  lemma MessageNumbered(shape: Shape, before: Option<PreviousMessage>)
    requires Assignable(shape, before) && Assigned(shape, before).Some?
    ensures DistinctNames(Assigned(shape, before).value.fields)
    ensures NumberedFrom(shape, Compiled(Assigned(shape, before).value))
    ensures forall f | f in Assigned(shape, before).value.fields :: f.typeName in TypesOf(shape.fields)
    ensures FieldNames(Assigned(shape, before).value.fields) == FieldNames(shape.fields)
  {
    hide Assigned, WellNumbered, Compiled;
    AssignedIsWellNumbered(shape, before);
    CompiledNames(shape, before);
    CompiledKeys(Assigned(shape, before).value);
    forall f | f in shape.fields
      ensures f.name in Compiled(Assigned(shape, before).value).fields
      ensures Compiled(Assigned(shape, before).value).fields[f.name].sig == f.Sig()
    {
      CompiledBinding(shape, before, f);
    }
    forall g | g in Assigned(shape, before).value.fields ensures g.typeName in TypesOf(shape.fields) {
      var f := ArisesFrom(shape, before, g);
    }
  }

  lemma AcceptedExactly(p: Progress, ids: set<string>, previous: Option<Contract>, n: string)
    requires ProgressOk(p, ids) && PreviousOk(previous) && n in p.table.messages
    requires Numberable(p.table.messages, previous)
    requires !TakenName(n)
    ensures MessageAccepted(Numbered(p.table.messages, previous), n) <==>
      DistinctNames(p.table.messages[n].fields) && JsonApart(FieldNames(p.table.messages[n].fields))
  {
    hide ProgressOk, Assigned, WellNumbered, Compiled, DistinctNames, TakenName, JsonApart, FieldNames;
    TableAssignable(p, ids, previous, n);
    var shape := p.table.messages[n];
    var before := PreviousMessageOf(previous, n);
    assert Numbered(p.table.messages, previous).Keys == p.table.messages.Keys;
    if DistinctNames(shape.fields) {
      MessageNumbered(shape, before);
    } else if DistinctNames(Assigned(shape, before).value.fields) {
      AssignedKeepsClashes(shape, before);
    }
  }

  lemma AlnumIsFree(name: string)
    requires AlnumOnly(name)
    ensures name !in ENUM_VALUES
  {
    forall v | v in ENUM_VALUES ensures !AlnumOnly(v) {
      assert v[9] == '_' && v[9] in v;
    }
  }

  lemma PlatformAlnum(k: PlatformMessage)
    ensures AlnumOnly(k.Name()) && !EndsWith(k.Name(), "Service")
  {
    var n := k.Name();
    assert n[|n| - 2] != 'c';
    assert forall i | 0 <= i < |n| :: IsAlnum(n[i]);
  }

  /** Message names are letters and digits, and equal the service name exactly when a schema derives it. */
  lemma MessageSymbols(id: Identity, grpc: seq<Endpoint>)
    requires UniqueIds(grpc) && Build(grpc).Ok?
    ensures var t := Build(grpc).value.table;
      && (forall n | n in t.messages :: AlnumOnly(n) && !TakenName(n))
      && (id.Service() in t.messages <==> id.Service() in SchemaNames(grpc))
  {
    hide AddEndpoints, Rooted, Tidy, Instrumented, RootsOk, OwnedBy, HasExecution, Closed, EntryOk, AlnumOnly, TakenName, SchemaNames, Identity.Service;
    BuildSound(grpc);
    var t := Build(grpc).value.table;
    BuiltNames(START, grpc);
    assert PathNames(START.table) == {};
    assert PathNames(t) == SchemaNames(grpc);
    forall n | n in t.messages
      ensures AlnumOnly(n) && !TakenName(n) && (n == id.Service() ==> n in SchemaNames(grpc))
    {
      MessageSymbol(id, t, grpc, n);
    }
    assert forall n | n in SchemaNames(grpc) :: n in t.messages;
  }

  lemma MessageSymbol(id: Identity, t: Table, grpc: seq<Endpoint>, n: string)
    requires TableOk(t) && PathNames(t) == SchemaNames(grpc) && n in t.messages
    ensures AlnumOnly(n) && !TakenName(n) && (n == id.Service() ==> n in SchemaNames(grpc))
  {
    hide ENUM_VALUES, SchemaNames, PlatformMessage.Name, EnumName;
    TableNames(t, n);
    assert EntryOk(n, t.origins[n], t.messages[n]);
    match t.origins[n] {
      case Platform(k) => PlatformAlnum(k);
      case Path(_, _, _) => DerivedAreAlnum(grpc, n);
    }
    AlnumIsFree(n);
  }

  lemma ServiceIsFree(id: Identity)
    requires Pascal(id.name).Some?
    ensures !TakenName(id.Service())
  {
    AlnumIsFree(id.Service());
    assert STATUS_ENUM[|STATUS_ENUM| - 1] == 's' && STREAM_ENUM[|STREAM_ENUM| - 1] == 'm';
    var r := id.Service();
    assert r[|r| - 7..][6] == 'e' && r[|r| - 1] == 'e';
  }

  /** protoc accepts the generated source exactly when the schemas of the gRPC endpoints are compilable. */
  lemma CompilesExactly(id: Identity, endpoints: seq<Endpoint>, previous: Option<Contract>)
    requires Generate(id, endpoints, previous).Done? && UniqueIds(endpoints) && PreviousOk(previous)
    ensures ProtocAccepts(Generate(id, endpoints, previous).generated) <==> Compilable(id, endpoints)
  {
    hide ProgressOk, Build, Generate, Assigned, DistinctNames, Numberable, PreviousOk, MessageAccepted, JsonApart, JsonFriendlyEndpoint, TakenName,
      Identity.Service, DerivedNamesOf, RpcTypesVisible, Shadows, Pascal, RequestName, ResponseName;
    var p := TableOf(id, endpoints, previous);
    var grpc := OverGrpc(endpoints);
    var g := Generate(id, endpoints, previous).generated;
    OverGrpcKeeps(endpoints);
    MessageSymbols(id, grpc);
    assert Pascal(id.name).Some? by { DoneHasName(id, endpoints, previous); }
    ServiceIsFree(id);
    forall n | n in g.shapes
      ensures MessageAccepted(g.shapes, n) <==> DistinctNames(p.table.messages[n].fields) && JsonApart(FieldNames(p.table.messages[n].fields))
    {
      AcceptedExactly(p, Ids(grpc), previous, n);
    }
    RootsThere(p, Ids(grpc));
    VisibleExactly(grpc, p.methods);
    assert g.shapes.Keys == p.table.messages.Keys;
    if NoEmptyResponse(endpoints) { TableJsonExactly(grpc); }
  }

  lemma CompilableHasNoEmptyResponse(id: Identity, endpoints: seq<Endpoint>)
    requires Compilable(id, endpoints)
    ensures NoEmptyResponse(endpoints)
  {
  }

  lemma DoneHasName(id: Identity, endpoints: seq<Endpoint>, previous: Option<Contract>)
    requires Generate(id, endpoints, previous).Done?
    ensures Pascal(id.name).Some?
  {
  }

  lemma RootsThere(p: Progress, ids: set<string>)
    requires ProgressOk(p, ids)
    ensures Distinct(p.methods)
    ensures forall rpc | rpc in p.methods :: RequestName(rpc) in p.table.messages && ResponseName(rpc) in p.table.messages
  {
    hide SoundTable, Rooted, OwnedBy, HasExecution;
    forall rpc | rpc in p.methods ensures RequestName(rpc) in p.table.messages && ResponseName(rpc) in p.table.messages {
      assert RootsOk(p.table, rpc);
    }
  }

  lemma TableNames(t: Table, n: string)
    requires TableOk(t) && n in t.messages
    ensures !EnumName(n) && !ScalarName(n)
  {
    assert EntryOk(n, t.origins[n], t.messages[n]);
    match t.origins[n]
    case Platform(k) =>
    case Path(_, _, _) => OwnNamesAreOwn(n);
  }

  lemma TypesResolve(t: Table, n: string)
    requires Closed(t) && n in t.messages
    ensures forall s | s in TypesOf(t.messages[n].fields) :: Resolves(t.messages.Keys, s)
  {
  }

  // ---------------------------------------------------------------- the compiled descriptor

  /** A descriptor compiled from a table of messages. */
  ghost predicate CompiledFrom(t: Table, d: Descriptor) {
    && d.messages.Keys == t.messages.Keys
    && forall n | n in t.messages :: NumberedFrom(t.messages[n], d.messages[n])
  }

  lemma RefersAsMentioned(t: Table, d: Descriptor)
    requires CompiledFrom(t, d)
    ensures Refers(d) == Mentions(t)
  {
    hide WellNumbered;
    forall n | n in t.messages
      ensures (set f | f in d.messages[n].fields :: d.messages[n].fields[f].sig.0) == TypesOf(t.messages[n].fields)
    {
      assert NumberedFrom(t.messages[n], d.messages[n]);
      forall f | f in d.messages[n].fields ensures d.messages[n].fields[f].sig.0 in TypesOf(t.messages[n].fields) {
        var g :| g in t.messages[n].fields && g.name == f;
      }
    }
  }

  lemma CompiledIsCoherent(p: Progress, ids: set<string>, d: Descriptor)
    requires ProgressOk(p, ids) && Tidy(p.table) && CompiledFrom(p.table, d) && d.methods == p.methods
    ensures WellFormed(d) && Coherent(d)
  {
    hide ProgressOk, Tidy, NumberedFrom, MessageCoherent, MethodCoherent, WellNumbered, Refers, Distinct;
    CompiledIsWellFormed(p.table, d);
    RefersAsMentioned(p.table, d);
    RootsThere(p, ids);
    forall n | n in d.messages ensures MessageCoherent(d, n) {
      CompiledMessage(p, ids, d, n);
    }
    forall rpc | rpc in d.methods ensures MethodCoherent(d, rpc) {
      CompiledMethod(p, ids, d, rpc);
    }
  }

  lemma CompiledIsWellFormed(t: Table, d: Descriptor)
    requires CompiledFrom(t, d)
    ensures WellFormed(d)
  {
    hide WellNumbered;
    forall n | n in d.messages ensures WellNumbered(d.messages[n]) {
      assert NumberedFrom(t.messages[n], d.messages[n]);
    }
  }

  lemma CompiledMessage(p: Progress, ids: set<string>, d: Descriptor, n: string)
    requires ProgressOk(p, ids) && d.methods == p.methods && n in p.table.messages
    requires d.messages.Keys == p.table.messages.Keys && Refers(d) == Mentions(p.table)
    ensures n in d.messages && MessageCoherent(d, n)
  {
    hide Instrumented, HasExecution, RootsOk, OwnedBy, Reaches, EntryOk;
    TableNames(p.table, n);
    TypesResolve(p.table, n);
    forall f | f in d.messages[n].fields ensures Resolves(d.messages.Keys, d.messages[n].fields[f].sig.0) {
      assert d.messages[n].fields[f].sig.0 in Refers(d)[n];
    }
    assert exists rpc | rpc in p.methods :: Under(p.table, rpc, n);
    var rpc :| rpc in p.methods && Under(p.table, rpc, n);
    assert UnderMethod(d, rpc, n);
  }

  lemma CompiledMethod(p: Progress, ids: set<string>, d: Descriptor, rpc: string)
    requires ProgressOk(p, ids) && Tidy(p.table) && CompiledFrom(p.table, d) && rpc in p.methods
    ensures MethodCoherent(d, rpc)
  {
    hide SoundTable, Rooted, RootsOk, OwnedBy, WellNumbered, DistinctNames;
    RootsThere(p, ids);
    assert HasExecution(p.table, ResponseName(rpc));
    var n := ResponseName(rpc);
    assert NumberedFrom(p.table.messages[n], d.messages[n]);
    var f :| f in p.table.messages[n].fields && f.name == "execution";
  }
}
