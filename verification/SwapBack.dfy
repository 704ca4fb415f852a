/** Two endpoints published as a-b, b-a, a-b: the third publication is refused. */
module SwapBack {
  import opened Prelude
  import opened Names
  import opened Numbering
  import opened Messages
  import opened MessageFacts
  import opened EndpointFacts
  import opened Symbols
  import opened Generator
  import opened GeneratorFacts
  import opened Evolution
  import opened Regeneration
  import opened History

  /** An endpoint without parameters that returns a Bool. */
  function Plainest(id: string): Endpoint {
    Endpoint(id, true, false, map[], Primitive("Bool"))
  }

  function PlatformShape(k: PlatformMessage): Shape {
    Shape(Response, k.Fields(), {}, {})
  }

  /** The platform message is either absent or as the response side declares it. */
  ghost predicate PlatformReady(t: Table, k: PlatformMessage) {
    && (k.Name() in t.origins <==> k.Name() in t.messages)
    && (k.Name() in t.messages ==> t.origins[k.Name()] == Platform(k) && t.messages[k.Name()] == PlatformShape(k))
  }

  ghost predicate Ready(t: Table) {
    t.messages.Keys == t.origins.Keys && PlatformReady(t, ExecutionLog) && PlatformReady(t, Execution)
  }

  lemma EnsureReady(t: Table, k: PlatformMessage)
    requires PlatformReady(t, k)
    ensures EnsurePlatform(t, k, Response) == Ok(Table(t.messages[k.Name() := PlatformShape(k)], t.origins[k.Name() := Platform(k)]))
  {
    PlatformFieldsFresh(k);
    if k.Name() in t.messages {
      assert t.messages == t.messages[k.Name() := PlatformShape(k)];
    } else {
      assert [] + k.Fields() == k.Fields();
      assert t.messages[k.Name() := ResultShape([])][k.Name() := PlatformShape(k)] == t.messages[k.Name() := PlatformShape(k)];
    }
  }

  function RequestShape(): Shape { Shape(Request, [], {}, {}) }

  function ResultShape(fields: seq<Field>): Shape { Shape(Response, fields, {}, {}) }

  const RESULT := Plain("result", "bool")

  lemma ResultField(t: Table, name: string, o: Origin)
    requires o.Path? && name in t.messages && t.messages[name] == ResultShape([])
    ensures AddProperties(t, name, ResponseStruct(Plainest("")), ["result"], Response, o)
      == Ok(t.(messages := t.messages[name := ResultShape([RESULT])]))
  {
    var struct := ResponseStruct(Plainest(""));
    assert struct.properties == map["result" := Primitive("Bool")];
    assert IsIdentifier("result");
    assert AddField(t, name, "result", Primitive("Bool"), Response, o.Child("result")) == Ok((t, RESULT));
    assert ["result"][1..] == [] && [] + [RESULT] == [RESULT];
  }

  lemma SortedSingleton(names: set<string>, k: string)
    requires names == {k}
    ensures Sorted(names) == [k]
  {
    assert First(names) == k && names - {k} == {};
  }

  function FourMore<V>(m: map<string, V>, rpc: string, request: V, response: V, log: V, execution: V): map<string, V> {
    m[RequestName(rpc) := request][ResponseName(rpc) := response]
     [ExecutionLog.Name() := log][Execution.Name() := execution]
  }

  /** The four messages of the endpoint, with the given response fields. */
  function Four(m: map<string, Shape>, rpc: string, response: Shape): map<string, Shape> {
    FourMore(m, rpc, RequestShape(), response, PlatformShape(ExecutionLog), PlatformShape(Execution))
  }

  function FourOrigins(m: map<string, Origin>, rpc: string, id: string): map<string, Origin> {
    FourMore(m, rpc, Path(id, Request, []), Path(id, Response, []), Platform(ExecutionLog), Platform(Execution))
  }

  lemma NamesApart(rpc: string)
    requires rpc != "" && IsUpper(rpc[0])
    ensures RequestName(rpc) != ResponseName(rpc) && ExecutionLog.Name() != Execution.Name()
    ensures forall k: PlatformMessage :: k.Name() != RequestName(rpc) && k.Name() != ResponseName(rpc)
  {
    DerivedNames(rpc, "");
    OwnNamesAreOwn(RequestName(rpc));
    OwnNamesAreOwn(ResponseName(rpc));
    assert |RequestName(rpc)| == |rpc| + 7 && |ResponseName(rpc)| == |rpc| + 8;
  }

  lemma DeclaresBoth(t: Table, rpc: string, id: string)
    requires rpc != "" && IsUpper(rpc[0]) && Ready(t)
    requires RequestName(rpc) !in t.messages && ResponseName(rpc) !in t.messages
    ensures AddRequest(t, rpc, Plainest(id)) == Ok(Table(
      t.messages[RequestName(rpc) := RequestShape()], t.origins[RequestName(rpc) := Path(id, Request, [])]))
    ensures var t1 := AddRequest(t, rpc, Plainest(id)).value;
      AddResponse(t1, rpc, Plainest(id)) == Ok(Table(
        t1.messages[ResponseName(rpc) := ResultShape([RESULT])], t1.origins[ResponseName(rpc) := Path(id, Response, [])]))
  {
    hide AddRequest, AddResponse;
    DeclaresRequest(t, rpc, id);
    var t1 := AddRequest(t, rpc, Plainest(id)).value;
    NamesApart(rpc);
    DeclaresResponse(t1, rpc, id);
  }

  lemma DeclaresRequest(t: Table, rpc: string, id: string)
    requires RequestName(rpc) !in t.origins && RequestName(rpc) !in t.messages
    ensures AddRequest(t, rpc, Plainest(id)) == Ok(Table(
      t.messages[RequestName(rpc) := RequestShape()], t.origins[RequestName(rpc) := Path(id, Request, [])]))
  {
    hide RequestName;
    assert Plainest(id).RequestSchema().properties.Keys == {};
    assert Sorted({}) == [];
  }

  lemma DeclaresResponse(t1: Table, rpc: string, id: string)
    requires ResponseName(rpc) !in t1.origins && ResponseName(rpc) !in t1.messages
    ensures AddResponse(t1, rpc, Plainest(id)) == Ok(Table(
      t1.messages[ResponseName(rpc) := ResultShape([RESULT])], t1.origins[ResponseName(rpc) := Path(id, Response, [])]))
  {
    hide ResponseName, AddProperties;
    var e := Plainest(id);
    var d := Declare(t1, ResponseName(rpc), Response, Path(id, Response, [])).value;
    assert ResponseStruct(e) == ResponseStruct(Plainest(""));
    SortedSingleton(ResponseStruct(e).properties.Keys, "result");
    ResultField(d, ResponseName(rpc), Path(id, Response, []));
    assert d.messages[ResponseName(rpc) := ResultShape([RESULT])] == t1.messages[ResponseName(rpc) := ResultShape([RESULT])];
  }

  lemma AddsPlatform(t: Table)
    requires Ready(t)
    ensures EnsureExecution(t) == Ok(Table(
      t.messages[ExecutionLog.Name() := PlatformShape(ExecutionLog)][Execution.Name() := PlatformShape(Execution)],
      t.origins[ExecutionLog.Name() := Platform(ExecutionLog)][Execution.Name() := Platform(Execution)]))
  {
    hide PlatformShape, EnsurePlatform;
    assert ExecutionLog.Name() != Execution.Name();
    EnsureReady(t, ExecutionLog);
    EnsureReady(EnsurePlatform(t, ExecutionLog, Response).value, Execution);
  }

  lemma AddsFour(t: Table, rpc: string, id: string)
    requires rpc != "" && IsUpper(rpc[0]) && Ready(t)
    requires RequestName(rpc) !in t.messages && ResponseName(rpc) !in t.messages
    ensures AddMessages(t, rpc, Plainest(id))
      == Ok(Table(Four(t.messages, rpc, ResultShape([RESULT])), FourOrigins(t.origins, rpc, id)))
  {
    hide AddRequest, AddResponse, PlatformShape, EnsureExecution, RequestName, ResponseName, Ready;
    DeclaresBoth(t, rpc, id);
    var t1 := AddRequest(t, rpc, Plainest(id)).value;
    var t2 := AddResponse(t1, rpc, Plainest(id)).value;
    ReadyAfterBoth(t, t2, rpc, id);
    AddsPlatform(t2);
  }

  lemma ReadyAfterBoth(t: Table, t2: Table, rpc: string, id: string)
    requires rpc != "" && IsUpper(rpc[0]) && Ready(t)
    requires t2.messages == t.messages[RequestName(rpc) := RequestShape()][ResponseName(rpc) := ResultShape([RESULT])]
    requires t2.origins == t.origins[RequestName(rpc) := Path(id, Request, [])][ResponseName(rpc) := Path(id, Response, [])]
    ensures Ready(t2)
  {
    hide PlatformShape, RequestName, ResponseName, PlatformMessage.Name;
    NamesApart(rpc);
  }

  // ---------------------------------------------------------------- one endpoint, then two

  function InstrumentedShape(): Shape {
    ResultShape([RESULT, Plain("execution", Execution.Name())])
  }

  lemma FourUpdated(m: map<string, Shape>, rpc: string, a: Shape, b: Shape)
    requires rpc != "" && IsUpper(rpc[0])
    ensures Four(m, rpc, a)[ResponseName(rpc) := b] == Four(m, rpc, b)
    ensures Four(m, rpc, a)[ResponseName(rpc)] == a
    ensures Four(m, rpc, a).Keys
      == m.Keys + {RequestName(rpc), ResponseName(rpc), ExecutionLog.Name(), Execution.Name()}
  {
    hide PlatformShape, RequestName, ResponseName, RequestShape;
    NamesApart(rpc);
  }

  lemma ReadyAgain(t: Table, rpc: string, id: string, b: Shape)
    requires rpc != "" && IsUpper(rpc[0]) && t.messages.Keys == t.origins.Keys
    ensures Ready(Table(Four(t.messages, rpc, b), FourOrigins(t.origins, rpc, id)))
  {
    hide PlatformShape, RequestName, ResponseName, RequestShape;
    NamesApart(rpc);
  }

  lemma AddsOne(p: Progress, rpc: string, id: string)
    requires Pascal(id) == Some(rpc) && rpc !in p.methods && Ready(p.table)
    requires RequestName(rpc) !in p.table.messages && ResponseName(rpc) !in p.table.messages
    ensures var t := Table(Four(p.table.messages, rpc, InstrumentedShape()), FourOrigins(p.table.origins, rpc, id));
      AddEndpoint(p, Plainest(id)) == Ok(Progress(t, p.methods + [rpc], Some(ResponseName(rpc)))) && Ready(t)
  {
    hide AddMessages, Four, FourOrigins, RequestName, ResponseName, Ready;
    AddsFour(p.table, rpc, id);
    FourUpdated(p.table.messages, rpc, ResultShape([RESULT]), InstrumentedShape());
    assert p.table.messages.Keys == p.table.origins.Keys by { KeysReady(p.table); }
    ReadyAgain(p.table, rpc, id, InstrumentedShape());
    assert [RESULT] + [Plain("execution", Execution.Name())] == [RESULT, Plain("execution", Execution.Name())];
    InFour(p.table.messages, rpc, ResultShape([RESULT]));
  }

  lemma KeysReady(t: Table)
    requires Ready(t)
    ensures t.messages.Keys == t.origins.Keys
  {
  }

  lemma InFour(m: map<string, Shape>, rpc: string, a: Shape)
    ensures ResponseName(rpc) in Four(m, rpc, a)
  {
  }

  lemma AddsTwo(x: string, y: string, id1: string, id2: string)
    requires Pascal(id1) == Some(x) && Pascal(id2) == Some(y) && x != y
    requires RequestName(y) != ResponseName(x) && RequestName(x) != ResponseName(y)
    ensures var r := Build([Plainest(id1), Plainest(id2)]);
      r.Ok? && r.value.methods == [x, y]
      && r.value.table.messages == Four(Four(map[], x, InstrumentedShape()), y, InstrumentedShape())
  {
    hide AddEndpoint, Four, FourOrigins, Pascal, RequestName, ResponseName;
    var e1, e2 := Plainest(id1), Plainest(id2);
    AddsOne(START, x, id1);
    var p := AddEndpoint(START, e1).value;
    NamesApart(y);
    ApartWhenDifferent(x, y);
    FourUpdated(map[], x, InstrumentedShape(), InstrumentedShape());
    AddsOne(p, y, id2);
    Unroll(e1, e2);
  }

  lemma Unroll(e1: Endpoint, e2: Endpoint)
    requires AddEndpoint(START, e1).Ok? && AddEndpoint(AddEndpoint(START, e1).value, e2).Ok?
    ensures Build([e1, e2]) == AddEndpoint(AddEndpoint(START, e1).value, e2)
  {
    hide AddEndpoint;
    assert [e1, e2][1..] == [e2] && [e2][1..] == [];
    assert AddEndpoints(AddEndpoint(START, e1).value, [e2]) == AddEndpoint(AddEndpoint(START, e1).value, e2);
  }

  lemma ApartWhenDifferent(x: string, y: string)
    requires x != y
    ensures RequestName(x) != RequestName(y) && ResponseName(x) != ResponseName(y)
  {
    assert forall m :: RequestName(m)[..|RequestName(m)| - 7] == m && ResponseName(m)[..|ResponseName(m)| - 8] == m;
  }

  lemma OrderDoesNotMatter(x: string, y: string)
    requires x != y && x != "" && IsUpper(x[0]) && y != "" && IsUpper(y[0])
    requires RequestName(y) != ResponseName(x) && RequestName(x) != ResponseName(y)
    ensures Four(Four(map[], x, InstrumentedShape()), y, InstrumentedShape()) == Four(Four(map[], y, InstrumentedShape()), x, InstrumentedShape())
  {
    hide PlatformShape, RequestName, ResponseName, InstrumentedShape, RequestShape;
    NamesApart(x);
    NamesApart(y);
    ApartWhenDifferent(x, y);
  }

  // ---------------------------------------------------------------- the three publications

  const A := Plainest("a")
  const B := Plainest("b")

  lemma PascalOfLetters()
    ensures Pascal("a") == Some("A") && Pascal("b") == Some("B")
    ensures RequestName("A") != ResponseName("B") && RequestName("B") != ResponseName("A")
  {
    OneLetter('a');
    OneLetter('b');
    hide Camel, Folded;
    RootsDiffer("A", "B");
  }

  lemma OneLetter(c: char)
    requires IsLower(c)
    ensures Camel([c], true) == [ToUpper(c)]
  {
    assert [c][1..] == [] && Camel([], false) == [];
  }

  lemma RootsDiffer(x: string, y: string)
    requires |x| == |y|
    ensures RequestName(x) != ResponseName(y) && RequestName(y) != ResponseName(x)
  {
    assert |RequestName(x)| == |RequestName(y)| == |x| + 7 && |ResponseName(x)| == |ResponseName(y)| == |x| + 8;
  }

  lemma BothOrders() returns (p: Progress, q: Progress)
    ensures Build([A, B]) == Ok(p) && Build([B, A]) == Ok(q)
    ensures p.methods == ["A", "B"] && q.methods == ["B", "A"]
    ensures p.table.messages == q.table.messages
    ensures SameMethods(p.methods, q.methods)
  {
    hide Build, Four, Pascal, RequestName, ResponseName;
    PascalOfLetters();
    assert "A" != "B";
    AddsTwo("A", "B", "a", "b");
    AddsTwo("B", "A", "b", "a");
    OrderDoesNotMatter("A", "B");
    p := Build([A, B]).value;
    q := Build([B, A]).value;
  }

  lemma PairsAreValid(id: Identity)
    ensures UniqueIds([A, B]) && UniqueIds([B, A])
    ensures OverGrpc([A, B]) == [A, B] && OverGrpc([B, A]) == [B, A]
    ensures Compilable(id, [A, B]) && Compilable(id, [B, A])
  {
    hide JsonFriendlyEndpoint, DerivedNamesOf, Identity.Service, Shadows;
    PairOverGrpc(A, B);
    PairOverGrpc(B, A);
    assert A.id[0] == 'a' && B.id[0] == 'b';
    PlainestCompiles(id, "a");
    PlainestCompiles(id, "b");
    NoShadow();
  }

  lemma PairOverGrpc(e: Endpoint, f: Endpoint)
    requires e.overGrpc && f.overGrpc
    ensures OverGrpc([e, f]) == [e, f]
  {
    assert [e, f][1..] == [f] && [f][1..] == [];
    assert OverGrpc([f]) == [f] + OverGrpc([]);
  }

  lemma NoShadow()
    ensures forall e, f | e in [A, B] && f in [A, B] :: !Shadows(f, e)
  {
    hide Pascal, Shadows;
    PascalOfLetters();
    EqualLengths(A, A, "A", "A");
    EqualLengths(A, B, "A", "B");
    EqualLengths(B, A, "B", "A");
    EqualLengths(B, B, "B", "B");
  }

  lemma EqualLengths(e: Endpoint, f: Endpoint, x: string, y: string)
    requires Pascal(e.id) == Some(x) && Pascal(f.id) == Some(y) && |x| == |y|
    ensures !Shadows(f, e)
  {
    hide Pascal;
    assert |RequestName(x)| == |x| + 7 && |ResponseName(x)| == |x| + 8;
  }

  lemma PlainestCompiles(id: Identity, endpoint: string)
    ensures JsonFriendlyEndpoint(Plainest(endpoint)) && id.Service() !in DerivedNamesOf(Plainest(endpoint))
  {
    hide Identity.Service, Pascal, JsonName;
    var e := Plainest(endpoint);
    PlainestIsFriendly(e);
    hide JsonFriendlyEndpoint;
    if Pascal(e.id).Some? {
      var rpc := Pascal(e.id).value;
      OnlyItself(RequestName(rpc), e.RequestSchema());
      ResultNames(ResponseName(rpc));
      NotTheService(id, rpc);
    }
  }

  lemma PlainestIsFriendly(e: Endpoint)
    requires e == Plainest(e.id)
    ensures JsonFriendlyEndpoint(e)
  {
    hide JsonApart;
    ResultIsFriendly();
    var response := ResponseStruct(e);
    assert response == Struct(true, map["result" := Primitive("Bool")]);
    assert e.RequestSchema() == Struct(true, map[]);
    assert response.properties.Keys == {"result"} && e.RequestSchema().properties.Keys == {};
    assert SchemaObeys(JsonNames, Primitive("Bool"));
  }

  lemma ResultIsFriendly()
    ensures JsonApart({"result"}) && JsonApart({"result", "execution"}) && JsonApart({"result"} + {"execution"}) && JsonApart({})
  {
    hide JsonName;
    PlainJson("result");
    PlainJson("execution");
    assert {"result"} + {"execution"} == {"result", "execution"};
  }

  lemma OnlyItself(name: string, struct: Schema)
    requires struct.Struct? && struct.properties == map[]
    ensures DerivedFrom(name, struct) == {name}
  {
  }

  lemma ResultNames(name: string)
    ensures DerivedFrom(name, ResponseStruct(Plainest(""))) == {name}
  {
    var struct := ResponseStruct(Plainest(""));
    assert struct.properties == map["result" := Primitive("Bool")];
    assert ChildNames(name, "result", Primitive("Bool")) == {};
  }

  /** The roots of a method are never called like a service. */
  lemma NotTheService(id: Identity, rpc: string)
    ensures id.Service() != RequestName(rpc) && id.Service() != ResponseName(rpc)
  {
    var s, a, b := id.Service(), RequestName(rpc), ResponseName(rpc);
    assert a[|a| - 1] == 't' && b[|b| - 2] == 's';
    assert s[|s| - 7..][6] == 'e' && s[|s| - 7..][5] == 'c';
    assert s[|s| - 1] == 'e' && s[|s| - 2] == 'c';
  }

  lemma FirstPrepared(id: Identity, p: Progress)
    requires Build([A, B]) == Ok(p) && Pascal(id.name).Some?
    ensures Prepare(id, [A, B], None).Some?
  {
    hide Build, Assigned, ProtocAccepts, IsBreaking, Compilable, ProgressOk;
    PairsAreValid(id);
    MessagesAreShort(p);
    BuildSound([A, B]);
    assert PreviousOk(None);
    forall n | n in p.table.messages ensures Assigned(p.table.messages[n], PreviousMessageOf(None, n)).Some? {
      TableAssignable(p, Ids([A, B]), None, n);
      FirstNumberedExactly(p.table.messages[n]);
    }
    CompilesExactly(id, [A, B], None);
  }

  lemma MessagesAreShort(p: Progress)
    requires Build([A, B]) == Ok(p)
    ensures forall n | n in p.table.messages :: |p.table.messages[n].fields| <= 10000
  {
    hide Build, Pascal;
    PascalOfLetters();
    AddsTwo("A", "B", "a", "b");
  }

  /** Each of the two orders can be prepared after the other. */
  lemma PreparedAfter(id: Identity, c: Contract, p: Progress, q: Progress)
    requires Build([A, B]) == Ok(p) && Build([B, A]) == Ok(q) && SameMethods(p.methods, q.methods) && Pascal(id.name).Some?
    requires Sound(id, c) && CompiledFrom(p.table, c.descriptor) && CompiledFrom(q.table, c.descriptor)
    requires SameMethods(p.methods, c.descriptor.methods) && SameMethods(q.methods, c.descriptor.methods)
    ensures Prepare(id, [A, B], Some(c)) == Some(Again(c, p.methods))
    ensures Prepare(id, [B, A], Some(c)) == Some(Again(c, q.methods))
  {
    hide Build, Sound, CompiledFrom, Prepare, Again, Compilable;
    PairsAreValid(id);
    SameMessagesAgain(id, [A, B], p, c);
    SameMessagesAgain(id, [B, A], q, c);
  }

  /** The contracts of the first two publications. */
  lemma TwoContracts(id: Identity) returns (c: Contract, d: Contract)
    requires Pascal(id.name).Some?
    ensures Prepare(id, [A, B], None) == Some(c) && Prepare(id, [B, A], Some(c)) == Some(d)
    ensures c.descriptor.methods == ["A", "B"] && c.version == Version(1, 0, 0)
    ensures d == Again(c, ["B", "A"])
    ensures Prepare(id, [A, B], Some(d)) == Some(Again(d, ["A", "B"]))
  {
    hide Build, CompiledFrom, Coherent, WellFormed, Follows, IsBreaking, Prepare, NumberedAfter, ProgressOk, Tidy;
    var p, q := BothOrders();
    FirstPrepared(id, p);
    c := Prepare(id, [A, B], None).value;
    PairsAreValid(id);
    var p' := PreparedFacts(id, [A, B], None);
    FirstIsSound(id, [A, B]);
    assert c.descriptor.methods == p.methods by { assert Follows(p, None, c.descriptor); FollowsMethods(p, None, c.descriptor); }
    SameTable(p, q, c.descriptor);
    PreparedAfter(id, c, p, q);
    d := Prepare(id, [B, A], Some(c)).value;
    PreparedSucceeds(id, [B, A], c);
    SameCompiled(p.table, c.descriptor, d.descriptor);
    SameTable(p, q, d.descriptor);
    PreparedAfter(id, d, p, q);
  }

  lemma FollowsMethods(p: Progress, previous: Option<Contract>, d: Descriptor)
    requires Follows(p, previous, d)
    ensures d.methods == p.methods
  {
  }

  lemma SameTable(p: Progress, q: Progress, d: Descriptor)
    requires p.table.messages == q.table.messages && CompiledFrom(p.table, d)
    ensures CompiledFrom(q.table, d)
  {
  }

  lemma SameCompiled(t: Table, a: Descriptor, b: Descriptor)
    requires CompiledFrom(t, a) && a.messages == b.messages
    ensures CompiledFrom(t, b)
  {
  }

  /** Publishing a-b, b-a and a-b again: the third request is refused and changes nothing. */
  lemma SwapBackIsRefused(id: Identity)
    requires Pascal(id.name).Some?
    ensures UniqueIds([A, B]) && UniqueIds([B, A])
    ensures var h := Run(id, [[A, B], [B, A]]);
      && |h| == 2 && h[0].descriptor.methods == ["A", "B"] && h[1].descriptor.methods == ["B", "A"]
      && Prepare(id, [A, B], Latest(h)).Some?
      && Register(h, Prepare(id, [A, B], Latest(h)).value).None?
      && Run(id, [[A, B], [B, A], [A, B]]) == h
  {
    hide Prepare, Run, Register;
    PairsAreValid(id);
    var c, d := TwoContracts(id);
    NothingPublished(id);
    RunUnrolled(id, [[A, B]], [], [A, B]);
    RunUnrolled(id, [[A, B], [B, A]], [[A, B]], [B, A]);
    RunUnrolled(id, [[A, B], [B, A], [A, B]], [[A, B], [B, A]], [A, B]);
    ThirdIsRefused(c, d);
  }

  /** The first contract and the swapped one are registered, and the first one with a new version is not. */
  lemma ThirdIsRefused(c: Contract, d: Contract)
    requires c.descriptor.methods == ["A", "B"] && c.version == Version(1, 0, 0) && d == Again(c, ["B", "A"])
    ensures Register([], c) == Some([c]) && Register([c], d) == Some([c, d])
    ensures Register([c, d], Again(d, ["A", "B"])).None?
    ensures Latest([c]) == Some(c) && Latest([c, d]) == Some(d)
  {
    var e := Again(d, ["A", "B"]);
    assert ["A", "B"][0] != ["B", "A"][0];
    assert c.descriptor != d.descriptor && e.descriptor == c.descriptor && e.version == Version(1, 2, 0);
    assert c in [c, d] && [] + [c] == [c] && [c] + [d] == [c, d];
    assert Latest([c]) == Some(c) && Latest([c, d]) == Some(d);
  }

  lemma RunUnrolled(id: Identity, requests: seq<seq<Endpoint>>, before: seq<seq<Endpoint>>, last: seq<Endpoint>)
    requires requests == before + [last]
    ensures Run(id, requests) == Publish(id, Run(id, before), last)
  {
    assert requests[..|requests| - 1] == before;
  }
}
