/** Interfaces that cannot be published: when generation trips over the response local, and inputs that protoc refuses. */
module Refusals {
  import opened Prelude
  import opened Names
  import opened Numbering
  import opened Messages
  import opened MessageFacts
  import opened EndpointFacts
  import opened Symbols
  import opened Buildable
  import opened FirstPublication
  import opened Generator
  import opened GeneratorFacts
  import opened SwapBack

  // ---------------------------------------------------------------- the unbound response

  lemma {:induction false} FieldFailure(t: Table, parent: string, name: string, schema: Schema, direction: Direction, o: Origin)
    requires o.Path? && AddField(t, parent, name, schema, direction, o).Err?
    ensures AddField(t, parent, name, schema, direction, o).error == GenerationError
    decreases schema, 2, 0
  {
    match schema
    case Struct(_, _) =>
      if IsIdentifier(name) && schema.closed && Pascal(name).Some? {
        NestedFailure(t, parent + Pascal(name).value, schema, direction, o);
      }
    case List(item) =>
      if IsIdentifier(name) && !item.List? && !item.ListWithoutItems? {
        FieldFailure(t, parent, name, item, direction, o.Child("items"));
      }
    case _ =>
  }

  lemma {:induction false} NestedFailure(t: Table, nested: string, struct: Schema, direction: Direction, o: Origin)
    requires o.Path? && struct.Struct? && AddNested(t, nested, struct, direction, o).Err?
    ensures AddNested(t, nested, struct, direction, o).error == GenerationError
    decreases struct, 1, 0
  {
    if Declare(t, nested, direction, o).Ok? {
      PropertiesFailure(Declare(t, nested, direction, o).value, nested, struct, Sorted(struct.properties.Keys), direction, o);
    }
  }

  lemma {:induction false} PropertiesFailure(t: Table, owner: string, struct: Schema, names: seq<string>, direction: Direction, o: Origin)
    requires o.Path? && struct.Struct? && forall n | n in names :: n in struct.properties
    requires AddProperties(t, owner, struct, names, direction, o).Err?
    ensures AddProperties(t, owner, struct, names, direction, o).error == GenerationError
    decreases struct, 0, |names|
  {
    if names != [] {
      var n := names[0];
      var field := AddField(t, owner, n, struct.properties[n], direction, o.Child(n));
      if field.Err? {
        FieldFailure(t, owner, n, struct.properties[n], direction, o.Child(n));
      } else {
        PropertiesFailure(Append(field.value.0, owner, [field.value.1]), owner, struct, names[1..], direction, o);
      }
    }
  }

  /** The messages of an endpoint fail only by a generation error. */
  lemma MessagesFailure(t: Table, rpc: string, e: Endpoint)
    requires AddMessages(t, rpc, e).Err?
    ensures AddMessages(t, rpc, e).error == GenerationError
  {
    hide AddNested;
    var t1 := AddRequest(t, rpc, e);
    if t1.Err? {
      NestedFailure(t, RequestName(rpc), e.RequestSchema(), Request, Path(e.id, Request, []));
    } else if AddResponse(t1.value, rpc, e).Err? && AddNested(t1.value, ResponseName(rpc), ResponseStruct(e), Response, Path(e.id, Response, [])).Err? {
      NestedFailure(t1.value, ResponseName(rpc), ResponseStruct(e), Response, Path(e.id, Response, []));
    }
  }

  lemma EmptyIsSound()
    ensures SoundTable(EMPTY_TABLE) && OwnedBy(EMPTY_TABLE, {}) && PathNames(EMPTY_TABLE) == {}
  {
  }

  /** The first endpoint can be built, and its response is a Struct without properties. */
  predicate StartsUnbound(endpoints: seq<Endpoint>) {
    endpoints != [] && EmptyResponse(endpoints[0]) && Publishable(endpoints[0])
  }

  lemma EndpointUnbound(p: Progress, e: Endpoint)
    ensures p.response.Some? ==> AddEndpoint(p, e) != Err(UnboundResponse)
    ensures AddEndpoint(p, e).Ok? ==> AddEndpoint(p, e).value.response.Some?
    ensures p == START ==> (AddEndpoint(p, e) == Err(UnboundResponse) <==>
      Pascal(e.id).Some? && EmptyResponse(e) && AddMessages(EMPTY_TABLE, Pascal(e.id).value, e).Ok?)
  {
    hide AddMessages;
    if Pascal(e.id).Some? && AddMessages(p.table, Pascal(e.id).value, e).Err? {
      MessagesFailure(p.table, Pascal(e.id).value, e);
    }
  }

  lemma {:induction false} BoundStaysBound(p: Progress, endpoints: seq<Endpoint>)
    requires p.response.Some?
    ensures AddEndpoints(p, endpoints) != Err(UnboundResponse)
    decreases |endpoints|
  {
    hide AddEndpoint;
    if endpoints != [] {
      EndpointUnbound(p, endpoints[0]);
      if AddEndpoint(p, endpoints[0]).Ok? { BoundStaysBound(AddEndpoint(p, endpoints[0]).value, endpoints[1..]); }
    }
  }

  /** The response local is unbound exactly when the first endpoint could be built but for its empty response. */
  lemma UnboundExactly(endpoints: seq<Endpoint>)
    ensures Build(endpoints) == Err(UnboundResponse) <==> StartsUnbound(endpoints)
  {
    hide AddEndpoint, AddMessages, Publishable;
    if endpoints != [] {
      var e := endpoints[0];
      EndpointUnbound(START, e);
      if AddEndpoint(START, e).Ok? { BoundStaysBound(AddEndpoint(START, e).value, endpoints[1..]); }
      FirstExactly(e);
    }
  }

  lemma FirstExactly(e: Endpoint)
    ensures Pascal(e.id).Some? && AddMessages(EMPTY_TABLE, Pascal(e.id).value, e).Ok? <==> Publishable(e)
  {
    hide AddMessages, Publishable, SoundTable, OwnedBy, PathNames, DerivedNamesOf;
    EmptyIsSound();
    if Pascal(e.id).Some? { MessagesBuild(EMPTY_TABLE, Pascal(e.id).value, e, {}); } else { Nameless(e); }
  }

  /** So generation raises on such an interface, whatever was published before. */
  lemma GenerationRaisesExactly(id: Identity, endpoints: seq<Endpoint>, previous: Option<Contract>)
    requires Pascal(id.name).Some?
    ensures Generate(id, endpoints, previous) == Rejected(UnboundResponse) <==>
      (forall e | e in OverGrpc(endpoints) :: !e.handWritten) && StartsUnbound(OverGrpc(endpoints))
  {
    hide Build, StartsUnbound, Numberable;
    UnboundExactly(OverGrpc(endpoints));
    assert OverGrpc(endpoints) == [] ==> !StartsUnbound(OverGrpc(endpoints)) by { NeedsEndpoint(); }
  }

  lemma NeedsEndpoint()
    ensures !StartsUnbound([])
  {
  }

  // ---------------------------------------------------------------- inputs

  /** An endpoint without parameters whose response is a Struct without properties. */
  function Empty(id: string): Endpoint {
    Endpoint(id, true, false, map[], Struct(true, map[]))
  }

  /** Known scalars under identifiers never stand in the way. */
  lemma ScalarsBuild(struct: Schema, name: string)
    requires struct.Struct?
    requires forall k | k in struct.properties :: IsIdentifier(k) && struct.properties[k] == Primitive("Bool")
    ensures ShapedStruct(struct) && Separate(name, struct) && DerivedFrom(name, struct) == {name}
  {
    hide IsIdentifier, Pascal;
    assert ScalarType("Bool") == Some("bool");
    forall k | k in struct.properties ensures ChildNames(name, k, struct.properties[k]) == {} {
    }
  }

  lemma ResponseBuilds(e: Endpoint, name: string)
    requires e.response == Primitive("Bool") || (e.response.Struct? && e.response.properties == map[])
    ensures ShapedStruct(ResponseStruct(e)) && Separate(name, ResponseStruct(e)) && DerivedFrom(name, ResponseStruct(e)) == {name}
  {
    hide ShapedStruct, Separate, DerivedFrom;
    assert IsIdentifier("result");
    assert ResponseStruct(e).properties == if e.response.Struct? then map[] else map["result" := Primitive("Bool")];
    ScalarsBuild(ResponseStruct(e), name);
  }

  /** An endpoint without parameters, with a scalar response or an empty one. */
  lemma PlainBuilds(e: Endpoint, rpc: string)
    requires Pascal(e.id) == Some(rpc) && e.parameters == map[]
    requires e.response == Primitive("Bool") || e.response == Struct(true, map[])
    ensures Publishable(e) && DerivedNamesOf(e) == {RequestName(rpc), ResponseName(rpc)}
  {
    hide Pascal, ShapedStruct, Separate, DerivedFrom;
    ScalarsBuild(e.RequestSchema(), RequestName(rpc));
    ResponseBuilds(e, ResponseName(rpc));
  }

  /** Alone, such an endpoint makes generation raise. */
  lemma EmptyAlone()
    ensures Build([Empty("a")]) == Err(UnboundResponse)
  {
    hide Build, Pascal, Publishable;
    PascalOfLetters();
    PlainBuilds(Empty("a"), "A");
    UnboundExactly([Empty("a")]);
  }

  lemma StartSound(e: Endpoint)
    requires AddEndpoint(START, e).Ok?
    ensures ProgressOk(AddEndpoint(START, e).value, {e.id})
  {
    hide ProgressOk, AddEndpoint;
    StartOk();
    EndpointStep(START, e, {});
    assert {} + {e.id} == {e.id};
  }

  /** After another endpoint it adds a second field `execution` to that endpoint's response. */
  lemma EmptyAfterAnother()
    ensures Build([A, Empty("b")]).Ok?
    ensures var t := Build([A, Empty("b")]).value.table;
      && "AResponse" in t.messages
      && t.messages["AResponse"].fields == [RESULT, Plain("execution", Execution.Name()), Plain("execution", Execution.Name())]
      && !DistinctNames(t.messages["AResponse"].fields)
  {
    hide Build, AddEndpoint, AddMessages, Pascal, Four, FourOrigins, ProgressOk, InstrumentedShape, Append, Preserves, DistinctNames;
    PascalOfLetters();
    AddsOne(START, "A", "a");
    var p := AddEndpoint(START, A).value;
    StartSound(A);
    SecondIsAdded(p);
    FourUpdated(map[], "A", InstrumentedShape(), InstrumentedShape());
    var t := AddMessages(p.table, "B", Empty("b")).value;
    assert ResponseName("A") == "AResponse" && "B" !in p.methods;
    MetadataTwice(p.table, t);
    EmptyStep(p, "B", Empty("b"));
    Unroll(A, Empty("b"));
  }

  lemma EmptyStep(p: Progress, rpc: string, e: Endpoint)
    requires Pascal(e.id) == Some(rpc) && rpc !in p.methods && AddMessages(p.table, rpc, e).Ok?
    requires p.response.Some? && EmptyResponse(e)
    ensures AddEndpoint(p, e).Ok?
    ensures AddEndpoint(p, e).value.table
      == Append(AddMessages(p.table, rpc, e).value, p.response.value, [Plain("execution", Execution.Name())])
  {
    hide AddMessages, Pascal, Append;
  }

  lemma SecondIsAdded(p: Progress)
    requires AddEndpoint(START, A) == Ok(p) && ProgressOk(p, {"a"})
    ensures AddMessages(p.table, "B", Empty("b")).Ok?
    ensures Preserves(p.table, AddMessages(p.table, "B", Empty("b")).value, {})
  {
    hide AddEndpoint, AddMessages, Pascal, Publishable, SoundTable, OwnedBy, Rooted, Instrumented, Preserves, PathNames, RootsOk, HasExecution;
    PascalOfLetters();
    PlainBuilds(A, "A");
    PlainBuilds(Empty("b"), "B");
    EndpointNames(START, A);
    EmptyIsSound();
    FourNamesApart("A", "B");
    MessagesBuild(p.table, "B", Empty("b"), {"a"});
    MessagesPreserve(p.table, "B", Empty("b"), {"a"});
  }

  lemma FourNamesApart(x: string, y: string)
    requires x != y && RequestName(x) != ResponseName(y) && ResponseName(x) != RequestName(y)
    ensures {RequestName(x), ResponseName(x)} !! {RequestName(y), ResponseName(y)}
  {
    hide RequestName, ResponseName;
    ApartWhenDifferent(x, y);
  }

  lemma MessagesPreserve(t: Table, rpc: string, e: Endpoint, ids: set<string>)
    requires SoundTable(t) && OwnedBy(t, ids) && e.id !in ids
    requires rpc != "" && IsUpper(rpc[0]) && AddMessages(t, rpc, e).Ok?
    ensures Preserves(t, AddMessages(t, rpc, e).value, {})
  {
    hide AddMessages, SoundTable, OwnedBy, Preserves, RootsOk;
    MessagesStep(t, rpc, e, ids);
  }

  lemma MetadataTwice(p: Table, t: Table)
    requires Preserves(p, t, {}) && "AResponse" in p.messages && p.messages["AResponse"] == InstrumentedShape()
    ensures var q := Append(t, "AResponse", [Plain("execution", Execution.Name())]);
      && "AResponse" in q.messages
      && q.messages["AResponse"].fields == [RESULT, Plain("execution", Execution.Name()), Plain("execution", Execution.Name())]
      && !DistinctNames(q.messages["AResponse"].fields)
  {
    var fields := Append(t, "AResponse", [Plain("execution", Execution.Name())]).messages["AResponse"].fields;
    assert fields[1].name == fields[2].name;
  }

  // ---------------------------------------------------------------- more inputs that protoc refuses

  /** Endpoints that are all over gRPC and can be built are generated. */
  lemma AllAreGenerated(id: Identity, endpoints: seq<Endpoint>)
    requires Pascal(id.name).Some? && endpoints != [] && UniqueIds(endpoints) && NamesApartIn(endpoints)
    requires forall e | e in endpoints :: e.overGrpc && !e.handWritten && Publishable(e) && Roomy(e) && !EmptyResponse(e)
    ensures Generate(id, endpoints, None).Done? && OverGrpc(endpoints) == endpoints
  {
    hide Generate, Publishable, NamesApartIn, EmptyResponse, Pascal, Roomy, UniqueIds;
    AllOverGrpc(endpoints);
    GeneratedExactly(id, endpoints);
  }

  lemma {:induction false} AllOverGrpc(endpoints: seq<Endpoint>)
    requires forall e | e in endpoints :: e.overGrpc
    ensures OverGrpc(endpoints) == endpoints
  {
    if endpoints != [] { AllOverGrpc(endpoints[1..]); }
  }

  lemma OneIsGenerated(id: Identity, e: Endpoint)
    requires Pascal(id.name).Some? && e.overGrpc && !e.handWritten && Publishable(e) && Roomy(e) && !EmptyResponse(e)
    ensures Generate(id, [e], None).Done? && OverGrpc([e]) == [e] && UniqueIds([e])
  {
    hide Generate, Publishable, Roomy, EmptyResponse, Pascal;
    AllAreGenerated(id, [e]);
  }

  /** Few keys leave room. */
  lemma FewKeys(struct: Schema, keys: set<string>)
    requires struct.Struct? && struct.properties.Keys == keys && |keys| <= 2
    requires forall k | k in struct.properties :: struct.properties[k] == Primitive("Bool") || struct.properties[k] == Struct(true, map[])
    ensures SchemaObeys(Capacity, struct) && Obeys(Capacity, struct.properties.Keys + {"execution"})
  {
    var none: map<string, Schema> := map[];
    assert none.Keys == {};
    assert SchemaObeys(Capacity, Struct(true, map[])) && SchemaObeys(Capacity, Primitive("Bool"));
    SumSize(keys, {"execution"});
  }

  lemma SumSize(a: set<string>, b: set<string>)
    ensures |a + b| <= |a| + |b|
  {
    assert a + b == a + (b - a);
    SubsetSize(b - a, b);
  }

  lemma RoomForPlain(e: Endpoint, keys: set<string>)
    requires e.response == Primitive("Bool") && e.parameters.Keys == keys && |keys| <= 2
    requires forall k | k in e.parameters :: e.parameters[k] == Primitive("Bool") || e.parameters[k] == Struct(true, map[])
    ensures Roomy(e)
  {
    hide SchemaObeys, Obeys;
    FewKeys(e.RequestSchema(), keys);
    ResultKey(e);
    FewKeys(ResponseStruct(e), {"result"});
  }

  lemma ResultKey(e: Endpoint)
    requires e.response == Primitive("Bool")
    ensures ResponseStruct(e).properties == map["result" := Primitive("Bool")]
    ensures ResponseStruct(e).properties.Keys == {"result"} && |{"result"}| == 1
  {
    assert ResponseStruct(e).properties == map["result" := Primitive("Bool")];
  }

  /** Two parameters whose JSON names are both userId. */
  const USER_IDS := Endpoint("a", true, false, map["user_id" := Primitive("Bool"), "userId" := Primitive("Bool")], Primitive("Bool"))

  lemma SameJsonName(id: Identity)
    requires Pascal(id.name).Some?
    ensures Generate(id, [USER_IDS], None).Done? && UniqueIds([USER_IDS])
    ensures !ProtocAccepts(Generate(id, [USER_IDS], None).generated) && NoEmptyResponse([USER_IDS])
  {
    var e := USER_IDS;
    hide Generate, ProtocAccepts, Pascal, Roomy, Publishable, JsonFriendlyEndpoint, DerivedNamesOf, Identity.Service, Shadows;
    PascalOfLetters();
    UserIdsBuild();
    UserIdsHaveRoom();
    OneIsGenerated(id, e);
    UserIdsClash();
    NotCompilable(id, [e], e);
    hide Compilable;
    CompilesExactly(id, [e], None);
  }

  lemma NotCompilable(id: Identity, endpoints: seq<Endpoint>, e: Endpoint)
    requires e in OverGrpc(endpoints)
    requires !JsonFriendlyEndpoint(e) || id.Service() in DerivedNamesOf(e)
    ensures !Compilable(id, endpoints)
  {
    hide JsonFriendlyEndpoint, DerivedNamesOf, Identity.Service, Shadows;
    assert !SchemaCompiles(id, e);
  }

  lemma UserIdsBuild()
    requires Pascal("a") == Some("A")
    ensures Publishable(USER_IDS)
  {
    hide Pascal, IsIdentifier, ShapedStruct, Separate;
    UserIdsAreIdentifiers();
    assert USER_IDS.RequestSchema().properties == map["user_id" := Primitive("Bool"), "userId" := Primitive("Bool")];
    ScalarsBuild(USER_IDS.RequestSchema(), RequestName("A"));
    ResponseBuilds(USER_IDS, ResponseName("A"));
  }

  lemma UserIdsAreIdentifiers()
    ensures IsIdentifier("user_id") && IsIdentifier("userId")
  {
  }

  lemma UserIdsHaveRoom()
    ensures Roomy(USER_IDS)
  {
    hide Roomy;
    assert USER_IDS.parameters.Keys == {"user_id", "userId"} && |{"user_id", "userId"}| == 2;
    RoomForPlain(USER_IDS, {"user_id", "userId"});
  }

  lemma UserIdsClash()
    ensures !JsonFriendlyEndpoint(USER_IDS)
  {
    hide JsonName;
    UserIdNames();
    ClashIn(USER_IDS.RequestSchema(), "user_id", "userId");
  }

  lemma UserIdNames()
    ensures JsonName("user_id", false) == "userId" == JsonName("userId", false)
  {
    TwoWordJson("user", "id");
    assert "user_id" == "user" + "_" + "id" && "userId" == "user" + "I" + "d";
    PlainJson("userId");
  }

  lemma ClashIn(schema: Schema, a: string, b: string)
    requires schema.Struct? && a in schema.properties && b in schema.properties
    requires a != b && JsonName(a, false) == JsonName(b, false)
    ensures !SchemaObeys(JsonNames, schema)
  {
    hide JsonName;
  }

  /** A parameter whose message is called like the service a-request. */
  const NAMESAKE := Endpoint("a", true, false, map["service" := Struct(true, map[])], Primitive("Bool"))

  lemma ServiceNamesake(segment: string)
    ensures var id := Identity(segment, "a-request");
      && id.Service() == "ARequestService"
      && Generate(id, [NAMESAKE], None).Done? && UniqueIds([NAMESAKE])
      && !ProtocAccepts(Generate(id, [NAMESAKE], None).generated) && NoEmptyResponse([NAMESAKE])
  {
    hide Generate, ProtocAccepts, Pascal, Roomy, Publishable, JsonFriendlyEndpoint, DerivedNamesOf, Identity.Service, Compilable;
    var id, e := Identity(segment, "a-request"), NAMESAKE;
    PascalOfLetters();
    PascalOfNames();
    ServiceOfNamesake(segment);
    NamesakeBuilds();
    NamesakeHasRoom();
    NamesakeIsDerived();
    OneIsGenerated(id, e);
    NotCompilable(id, [e], e);
    CompilesExactly(id, [e], None);
  }

  lemma PascalOfNames()
    ensures Pascal("service") == Some("Service") && Pascal("a-request") == Some("ARequest")
  {
    hide Camel, Folded;
    CamelOfService();
    CamelOfRequest();
  }

  lemma CamelOfService()
    ensures Camel("service", true) == "Service"
  {
    hide Camel, Folded;
    PartIsCapitalised("service");
    assert "service"[1..] == "ervice" && ['S'] + "ervice" == "Service";
  }

  lemma CamelOfRequest()
    ensures Camel("a-request", true) == "ARequest"
  {
    hide Camel, Folded;
    PartsAreJoined("a", '-', "request", true);
    assert "a" + ['-'] + "request" == "a-request";
    PartIsCapitalised("a");
    PartIsCapitalised("request");
    assert "request"[1..] == "equest" && "a"[1..] == "" && ['A'] + "" + (['R'] + "equest") == "ARequest";
  }

  lemma ServiceOfNamesake(segment: string)
    requires Pascal("a-request") == Some("ARequest")
    ensures Identity(segment, "a-request").Service() == "ARequestService"
  {
    hide Identity.Service, Pascal;
    SuffixIsAdded(Identity(segment, "a-request"), "ARequest");
    NamesakeJoins();
  }

  lemma NamesakeJoins()
    ensures "ARequest" + "Service" == "ARequestService"
  {
  }

  lemma SuffixIsAdded(id: Identity, base: string)
    requires Pascal(id.name) == Some(base) && base != "" && base[|base| - 1] != 'e'
    ensures id.Service() == base + "Service"
  {
    hide Pascal, AlnumOnly, EndsWith;
    NotAService(base);
  }

  lemma NotAService(base: string)
    requires base != "" && base[|base| - 1] != 'e'
    ensures !EndsWith(base, "Service")
  {
    if |base| >= 7 { assert base[|base| - 7..][6] == base[|base| - 1]; }
  }

  lemma NamesakeBuilds()
    requires Pascal("service") == Some("Service") && Pascal("a") == Some("A")
    ensures Publishable(NAMESAKE)
  {
    hide Pascal, ShapedStruct, Separate;
    assert NAMESAKE.RequestSchema().properties == map["service" := Struct(true, map[])];
    StructBuilds(NAMESAKE.RequestSchema(), RequestName("A"), "service");
    ResponseBuilds(NAMESAKE, ResponseName("A"));
  }

  lemma StructBuilds(struct: Schema, name: string, key: string)
    requires struct.Struct? && struct.properties == map[key := Struct(true, map[])]
    requires key == "service" && Pascal(key).Some?
    ensures ShapedStruct(struct) && Separate(name, struct)
  {
    hide Pascal, IsIdentifier, ChildNames;
    var inner := Struct(true, map[]);
    ServiceIsIdentifier();
    assert Shaped(key, inner);
    assert Separate(name + Pascal(key).value, inner);
    assert SeparateChild(name, key, inner);
  }

  lemma ServiceIsIdentifier()
    ensures IsIdentifier("service")
  {
  }

  lemma NamesakeHasRoom()
    ensures Roomy(NAMESAKE)
  {
    hide Roomy;
    assert NAMESAKE.parameters.Keys == {"service"} && |{"service"}| == 1;
    RoomForPlain(NAMESAKE, {"service"});
  }

  lemma NamesakeIsDerived()
    requires Pascal("service") == Some("Service") && Pascal("a") == Some("A")
    ensures "ARequestService" in DerivedNamesOf(NAMESAKE)
  {
    hide Pascal;
    var struct := NAMESAKE.RequestSchema();
    assert struct == Struct(true, map["service" := Struct(true, map[])]);
    assert RequestName("A") + "Service" == "ARequestService";
    assert "ARequestService" in ChildNames(RequestName("A"), "service", struct.properties["service"]);
  }

  /** Endpoints a and a-request: the method of one is called like the request message of the other. */
  lemma MethodNamesake(id: Identity)
    requires Pascal(id.name).Some?
    ensures var es := [Plainest("a"), Plainest("a-request")];
      && Generate(id, es, None).Done? && UniqueIds(es)
      && (forall e | e in es :: SchemaCompiles(id, e))
      && !ProtocAccepts(Generate(id, es, None).generated)
  {
    hide Generate, ProtocAccepts, Pascal, SchemaCompiles, UniqueIds;
    PascalOfLetters();
    PascalOfNames();
    NamesakeRequest();
    ShadowIsRefused(id, Plainest("a"), Plainest("a-request"), "A");
  }

  lemma NamesakeRequest()
    ensures RequestName("A") == "ARequest" && |"a"| == 1 && |"a-request"| == 9
  {
  }

  /** Nothing else is wrong with such a pair: it is generated, and each schema compiles by itself. */
  lemma ShadowIsRefused(id: Identity, e: Endpoint, f: Endpoint, rpc: string)
    requires Pascal(id.name).Some? && e == Plainest(e.id) && f == Plainest(f.id) && e.id != f.id
    requires Pascal(e.id) == Some(rpc) && Pascal(f.id) == Some(RequestName(rpc))
    ensures Generate(id, [e, f], None).Done? && UniqueIds([e, f])
    ensures forall x | x in [e, f] :: SchemaCompiles(id, x)
    ensures !ProtocAccepts(Generate(id, [e, f], None).generated)
  {
    hide Generate, ProtocAccepts, Pascal, Publishable, NamesApartIn, Roomy, SchemaCompiles, Compilable, RequestName, ResponseName;
    PlainestHasRoom(e.id);
    PlainestHasRoom(f.id);
    PlainestSchema(id, e.id);
    PlainestSchema(id, f.id);
    TwinsApart(e, f, rpc);
    AllAreGenerated(id, [e, f]);
    ShadowedPair(id, [e, f], e, f);
    CompilesExactly(id, [e, f], None);
  }

  lemma PlainestHasRoom(endpoint: string)
    ensures Roomy(Plainest(endpoint))
  {
    hide Roomy;
    assert Plainest(endpoint).parameters.Keys == {};
    RoomForPlain(Plainest(endpoint), {});
  }

  lemma PlainestSchema(id: Identity, endpoint: string)
    ensures SchemaCompiles(id, Plainest(endpoint))
  {
    hide JsonFriendlyEndpoint, DerivedNamesOf, Identity.Service;
    PlainestCompiles(id, endpoint);
  }

  lemma ShadowedPair(id: Identity, endpoints: seq<Endpoint>, e: Endpoint, f: Endpoint)
    requires e in OverGrpc(endpoints) && f in OverGrpc(endpoints) && Shadows(f, e)
    ensures !Compilable(id, endpoints)
  {
    hide Shadows, SchemaCompiles;
  }

  lemma TwinsApart(e: Endpoint, f: Endpoint, rpc: string)
    requires e == Plainest(e.id) && f == Plainest(f.id)
    requires Pascal(e.id) == Some(rpc) && Pascal(f.id) == Some(RequestName(rpc))
    ensures Publishable(e) && Publishable(f) && NamesApartIn([e, f])
  {
    hide Pascal, Publishable, DerivedNamesOf, RequestName, ResponseName;
    PlainBuilds(e, rpc);
    PlainBuilds(f, RequestName(rpc));
    LengthsDiffer(rpc, RequestName(rpc));
    FourNamesApart(rpc, RequestName(rpc));
  }

  lemma LengthsDiffer(x: string, y: string)
    requires y == RequestName(x)
    ensures x != y && RequestName(x) != ResponseName(y) && ResponseName(x) != RequestName(y)
  {
    assert |y| == |x| + 7 && |RequestName(x)| == |x| + 7 && |ResponseName(x)| == |x| + 8;
    assert |RequestName(y)| == |y| + 7 && |ResponseName(y)| == |y| + 8;
  }
}
