/** Message names and JSON names of a finished table, read off the schemas. */
module Symbols {
  import opened Prelude
  import opened Names
  import opened Numbering
  import opened Messages
  import opened MessageFacts
  import opened EndpointFacts
  import opened Ownership

  // ---------------------------------------------------------------- names of messages

  /** The messages that a schema yields when the Struct in it is to be called `name`. */
  function DerivedFrom(name: string, schema: Schema): set<string>
    decreases schema, 0
  {
    match schema
    case Struct(_, properties) =>
      {name} + set k, n | k in properties && n in ChildNames(name, k, properties[k]) :: n
    case List(item) => DerivedFrom(name, item)
    case _ => {}
  }

  /** The messages that a property yields. */
  function ChildNames(parent: string, key: string, schema: Schema): set<string>
    decreases schema, 1
  {
    if Pascal(key).None? then {} else DerivedFrom(parent + Pascal(key).value, schema)
  }

  /** All messages of an endpoint but the platform's. */
  function DerivedNamesOf(e: Endpoint): set<string> {
    if Pascal(e.id).None? then {}
    else
      var rpc := Pascal(e.id).value;
      DerivedFrom(RequestName(rpc), e.RequestSchema()) + DerivedFrom(ResponseName(rpc), ResponseStruct(e))
  }

  function SchemaNames(endpoints: seq<Endpoint>): set<string> {
    set e, n | e in endpoints && n in DerivedNamesOf(e) :: n
  }

  /** The messages of a table that stand for a path. */
  function PathNames(t: Table): set<string> {
    set n | n in t.origins && t.origins[n].Path?
  }

  lemma PlatformNames(t: Table, k: PlatformMessage, direction: Direction)
    requires EnsurePlatform(t, k, direction).Ok?
    ensures PathNames(EnsurePlatform(t, k, direction).value) == PathNames(t)
  {
    hide PlatformMessage.Name, PlatformMessage.Fields;
  }

  lemma DeclaredNames(t: Table, name: string, direction: Direction, o: Origin)
    requires o.Path? && Declare(t, name, direction, o).Ok?
    ensures PathNames(Declare(t, name, direction, o).value) == PathNames(t) + {name}
  {
  }

  lemma {:induction false} AddFieldNames(t: Table, parent: string, name: string, schema: Schema, direction: Direction, o: Origin)
    requires o.Path? && AddField(t, parent, name, schema, direction, o).Ok?
    ensures PathNames(AddField(t, parent, name, schema, direction, o).value.0) == PathNames(t) + ChildNames(parent, name, schema)
    decreases schema, 2, 0
  {
    hide PathNames, EnsurePlatform;
    match schema
    case Primitive(_) =>
    case Date => PlatformNames(t, DateValue, direction);
    case DatetimeTz => PlatformNames(t, DatetimeTzValue, direction);
    case Struct(_, _) => AddNestedNames(t, parent + Pascal(name).value, schema, direction, o);
    case List(item) => AddFieldNames(t, parent, name, item, direction, o.Child("items"));
    case ListWithoutItems =>
  }

  lemma {:induction false} AddNestedNames(t: Table, nested: string, struct: Schema, direction: Direction, o: Origin)
    requires o.Path? && struct.Struct? && AddNested(t, nested, struct, direction, o).Ok?
    ensures PathNames(AddNested(t, nested, struct, direction, o).value) == PathNames(t) + DerivedFrom(nested, struct)
    decreases struct, 1, 0
  {
    hide PathNames, Declare, AddProperties;
    var d := Declare(t, nested, direction, o).value;
    var keys := Sorted(struct.properties.Keys);
    DeclaredNames(t, nested, direction, o);
    AddPropertiesNames(d, nested, struct, keys, direction, o);
    AllBelow(nested, struct, keys);
  }

  function NamesBelow(owner: string, struct: Schema, keys: seq<string>): set<string>
    requires struct.Struct? && forall k | k in keys :: k in struct.properties
  {
    set k, n | k in keys && n in ChildNames(owner, k, struct.properties[k]) :: n
  }

  lemma AllBelow(name: string, struct: Schema, keys: seq<string>)
    requires struct.Struct? && forall k :: k in keys <==> k in struct.properties
    ensures DerivedFrom(name, struct) == {name} + NamesBelow(name, struct, keys)
  {
    hide ChildNames;
    forall n
      ensures n in DerivedFrom(name, struct) <==> n == name || n in NamesBelow(name, struct, keys)
    {
      if n in DerivedFrom(name, struct) && n != name {
        var k :| k in struct.properties && n in ChildNames(name, k, struct.properties[k]);
        assert k in keys;
      }
    }
  }

  lemma {:induction false} AddPropertiesNames(t: Table, owner: string, struct: Schema, names: seq<string>, direction: Direction, o: Origin)
    requires o.Path? && struct.Struct? && forall n | n in names :: n in struct.properties
    requires AddProperties(t, owner, struct, names, direction, o).Ok?
    ensures PathNames(AddProperties(t, owner, struct, names, direction, o).value) == PathNames(t) + NamesBelow(owner, struct, names)
    decreases struct, 0, |names|
  {
    hide AddField, ChildNames;
    if names != [] {
      var n := names[0];
      AddFieldNames(t, owner, n, struct.properties[n], direction, o.Child(n));
      var (d, f) := AddField(t, owner, n, struct.properties[n], direction, o.Child(n)).value;
      var a := Append(d, owner, [f]);
      assert PathNames(a) == PathNames(d);
      AddPropertiesNames(a, owner, struct, names[1..], direction, o);
      assert names == [n] + names[1..];
      assert NamesBelow(owner, struct, names) == ChildNames(owner, n, struct.properties[n]) + NamesBelow(owner, struct, names[1..]);
    }
  }

  lemma MessagesNames(t: Table, rpc: string, e: Endpoint)
    requires Pascal(e.id) == Some(rpc) && AddMessages(t, rpc, e).Ok?
    ensures PathNames(AddMessages(t, rpc, e).value) == PathNames(t) + DerivedNamesOf(e)
  {
    hide PathNames, AddNested, EnsurePlatform, DerivedFrom;
    var t1 := AddRequest(t, rpc, e).value;
    var t2 := AddResponse(t1, rpc, e).value;
    AddNestedNames(t, RequestName(rpc), e.RequestSchema(), Request, Path(e.id, Request, []));
    AddNestedNames(t1, ResponseName(rpc), ResponseStruct(e), Response, Path(e.id, Response, []));
    PlatformNames(t2, ExecutionLog, Response);
    PlatformNames(EnsurePlatform(t2, ExecutionLog, Response).value, Execution, Response);
  }

  /** The messages of a finished table, but for the platform's, are those derived from the schemas. */
  lemma {:induction false} BuiltNames(p: Progress, endpoints: seq<Endpoint>)
    requires AddEndpoints(p, endpoints).Ok?
    ensures PathNames(AddEndpoints(p, endpoints).value.table) == PathNames(p.table) + SchemaNames(endpoints)
    decreases |endpoints|
  {
    hide AddEndpoint, DerivedNamesOf, PathNames, SchemaNames;
    if endpoints == [] {
      NoSchemaNames();
    } else {
      EndpointNames(p, endpoints[0]);
      BuiltNames(AddEndpoint(p, endpoints[0]).value, endpoints[1..]);
      SchemaNamesSplit(endpoints);
    }
  }

  lemma NoSchemaNames()
    ensures SchemaNames([]) == {}
  {
  }

  lemma SchemaNamesSplit(endpoints: seq<Endpoint>)
    requires endpoints != []
    ensures SchemaNames(endpoints) == DerivedNamesOf(endpoints[0]) + SchemaNames(endpoints[1..])
  {
    hide DerivedNamesOf;
    assert endpoints == [endpoints[0]] + endpoints[1..];
  }

  lemma EndpointNames(p: Progress, e: Endpoint)
    requires AddEndpoint(p, e).Ok?
    ensures PathNames(AddEndpoint(p, e).value.table) == PathNames(p.table) + DerivedNamesOf(e)
  {
    hide AddMessages, DerivedNamesOf;
    MessagesNames(p.table, Pascal(e.id).value, e);
  }

  /** Derived names extend the name they start from by letters and digits. */
  lemma {:induction false} DerivedExtend(name: string, schema: Schema, n: string)
    requires n in DerivedFrom(name, schema)
    ensures name <= n && AlnumOnly(n[|name|..])
    decreases schema
  {
    hide AlnumOnly, Pascal, ChildNames;
    match schema
    case Struct(_, properties) =>
      if n == name {
        NothingIsAlnum(name);
      } else {
        var k :| k in properties && n in ChildNames(name, k, properties[k]);
        ChildOf(name, k, properties[k], n);
        var part := Pascal(k).value;
        DerivedExtend(name + part, properties[k], n);
        LongerSuffix(name, part, n);
      }
    case List(item) => DerivedExtend(name, item, n);
  }

  lemma NothingIsAlnum(name: string)
    ensures name <= name && AlnumOnly(name[|name|..])
  {
    assert name[|name|..] == "";
  }

  lemma ChildOf(parent: string, key: string, schema: Schema, n: string)
    requires n in ChildNames(parent, key, schema)
    ensures Pascal(key).Some? && n in DerivedFrom(parent + Pascal(key).value, schema)
  {
  }

  lemma LongerSuffix(name: string, part: string, n: string)
    requires name + part <= n && AlnumOnly(part) && AlnumOnly(n[|name + part|..])
    ensures name <= n && AlnumOnly(n[|name|..])
  {
    hide AlnumOnly;
    AlnumJoin(part, n[|name + part|..]);
    assert n[|name|..] == part + n[|name + part|..];
  }

  lemma DerivedAreAlnum(endpoints: seq<Endpoint>, n: string)
    requires n in SchemaNames(endpoints)
    ensures AlnumOnly(n)
  {
    var e :| e in endpoints && n in DerivedNamesOf(e);
    hide DerivedFrom, AlnumOnly, Pascal;
    var rpc := Pascal(e.id).value;
    SuffixesAreAlnum();
    AlnumJoin(rpc, "Request");
    AlnumJoin(rpc, "Response");
    if n in DerivedFrom(RequestName(rpc), e.RequestSchema()) {
      AlnumExtended(RequestName(rpc), e.RequestSchema(), n);
    } else {
      AlnumExtended(ResponseName(rpc), ResponseStruct(e), n);
    }
  }

  lemma SuffixesAreAlnum()
    ensures AlnumOnly("Request") && AlnumOnly("Response")
  {
  }

  lemma AlnumJoin(a: string, b: string)
    requires AlnumOnly(a) && AlnumOnly(b)
    ensures AlnumOnly(a + b)
  {
    assert forall c | c in a + b :: c in a || c in b;
  }

  lemma AlnumExtended(name: string, schema: Schema, n: string)
    requires AlnumOnly(name) && n in DerivedFrom(name, schema)
    ensures AlnumOnly(n)
  {
    hide DerivedFrom;
    DerivedExtend(name, schema, n);
    AlnumJoin(name, n[|name|..]);
    assert n == name + n[|name|..];
  }

  // ---------------------------------------------------------------- what a message asks of its field names

  /** JSON names must differ, and the numbers must suffice for a first publication. */
  datatype KeyRule = JsonNames | Capacity

  predicate Obeys(rule: KeyRule, keys: set<string>) {
    match rule
    case JsonNames => JsonApart(keys)
    case Capacity => |keys| <= CAPACITY
  }

  /** Every Struct of the schema obeys the rule. */
  predicate SchemaObeys(rule: KeyRule, schema: Schema)
    decreases schema
  {
    match schema
    case Struct(_, properties) =>
      Obeys(rule, properties.Keys) && forall k | k in properties :: SchemaObeys(rule, properties[k])
    case List(item) => SchemaObeys(rule, item)
    case _ => true
  }

  /** The same for an endpoint, whose response message has a field `execution` as well. */
  predicate EndpointObeys(rule: KeyRule, e: Endpoint) {
    && SchemaObeys(rule, e.RequestSchema()) && SchemaObeys(rule, ResponseStruct(e))
    && Obeys(rule, ResponseStruct(e).properties.Keys + {"execution"})
  }

  /** No two fields of a message of the endpoint have one JSON name. */
  predicate JsonFriendlyEndpoint(e: Endpoint) { EndpointObeys(JsonNames, e) }

  /** No message of the endpoint needs more numbers than there are. */
  predicate Roomy(e: Endpoint) { EndpointObeys(Capacity, e) }

  lemma {:induction false} ObeysAt(rule: KeyRule, schema: Schema, segments: seq<string>)
    requires SchemaObeys(rule, schema) && IsStructAt(schema, segments)
    ensures Obeys(rule, SchemaAt(schema, segments).value.properties.Keys)
    decreases |segments|
  {
    if segments != [] {
      match schema
      case Struct(_, properties) => ObeysAt(rule, properties[segments[0]], segments[1..]);
      case List(item) => ObeysAt(rule, item, segments[1..]);
    }
  }

  /** Every Struct inside the schema obeys the rule. */
  ghost predicate ObeyedEverywhere(rule: KeyRule, schema: Schema) {
    forall segments | IsStructAt(schema, segments) :: Obeys(rule, SchemaAt(schema, segments).value.properties.Keys)
  }

  lemma ObeyedBelow(rule: KeyRule, schema: Schema, k: string, child: Schema)
    requires ObeyedEverywhere(rule, schema) && SchemaAt(schema, [k]) == Some(child)
    ensures ObeyedEverywhere(rule, child)
  {
    forall segments | IsStructAt(child, segments) ensures Obeys(rule, SchemaAt(child, segments).value.properties.Keys) {
      SchemaAtJoin(schema, [k], segments);
      assert IsStructAt(schema, [k] + segments);
    }
  }

  lemma {:induction false} EverywhereObeys(rule: KeyRule, schema: Schema)
    requires ObeyedEverywhere(rule, schema)
    ensures SchemaObeys(rule, schema)
    decreases schema
  {
    match schema
    case Struct(_, properties) =>
      assert IsStructAt(schema, []);
      forall k | k in properties ensures SchemaObeys(rule, properties[k]) {
        assert [k][1..] == [];
        ObeyedBelow(rule, schema, k, properties[k]);
        EverywhereObeys(rule, properties[k]);
      }
    case List(item) =>
      assert ["items"][1..] == [];
      ObeyedBelow(rule, schema, "items", item);
      EverywhereObeys(rule, item);
    case _ =>
  }

  lemma {:induction false} PlainJson(name: string)
    requires '_' !in name
    ensures JsonName(name, false) == name
  {
    if name != "" { PlainJson(name[1..]); }
  }

  lemma {:induction false} TwoWordJson(a: string, b: string)
    requires '_' !in a && '_' !in b && b != ""
    ensures JsonName(a + "_" + b, false) == a + [ToUpper(b[0])] + b[1..]
    decreases |a|
  {
    var name := a + "_" + b;
    if a == "" {
      assert name[1..] == b;
      PlainJson(b[1..]);
    } else {
      assert name[1..] == a[1..] + "_" + b;
      TwoWordJson(a[1..], b);
    }
  }

  lemma PlatformJson(k: PlatformMessage)
    ensures JsonApart(FieldNames(k.Fields()))
  {
    match k
    case DateValue => DateJson();
    case DatetimeTzValue => DatetimeTzJson();
    case ExecutionLog => ExecutionLogJson();
    case Execution => ExecutionJson();
  }

  /** The JSON names of the fields, one by one, if they differ. */
  lemma ApartByImages(fields: seq<Field>, images: seq<string>)
    requires |fields| == |images| && Distinct(images)
    requires forall i | 0 <= i < |fields| :: JsonName(fields[i].name, false) == images[i]
    ensures JsonApart(FieldNames(fields))
  {
    forall a, b | a in FieldNames(fields) && b in FieldNames(fields) && JsonName(a, false) == JsonName(b, false) ensures a == b {
      var i :| 0 <= i < |fields| && fields[i].name == a;
      var j :| 0 <= j < |fields| && fields[j].name == b;
      assert images[i] == images[j];
    }
  }

  lemma DateJson()
    ensures JsonApart(FieldNames(DateValue.Fields()))
  {
    hide JsonName, JsonApart, FieldNames;
    PlainJson("year");
    PlainJson("month");
    PlainJson("day");
    ApartByImages(DateValue.Fields(), ["year", "month", "day"]);
  }

  lemma DatetimeTzJson()
    ensures JsonApart(FieldNames(DatetimeTzValue.Fields()))
  {
    hide JsonName, JsonApart, FieldNames;
    PlainJson("timestamp");
    TwoWordJson("offset", "minutes");
    assert "offset_minutes" == "offset" + "_" + "minutes";
    ApartByImages(DatetimeTzValue.Fields(), ["timestamp", "offset" + "M" + "inutes"]);
  }

  lemma ExecutionLogJson()
    ensures JsonApart(FieldNames(ExecutionLog.Fields()))
  {
    hide JsonName, JsonApart, FieldNames;
    PlainJson("sequence");
    PlainJson("stream");
    PlainJson("content");
    TwoWordJson("emitted", "at");
    assert "emitted_at" == "emitted" + "_" + "at";
    ApartByImages(ExecutionLog.Fields(), ["sequence", "stream", "content", "emitted" + "A" + "t"]);
  }

  const EXECUTION_IMAGES :=
    ["requestId", "service", "revision", "endpoint", "status", "error", "logs", "logBytes", "logsTruncated"]

  lemma ExecutionImages()
    ensures Distinct(EXECUTION_IMAGES)
  {
    var s := EXECUTION_IMAGES;
    assert |s[0]| == 9 && |s[1]| == 7 && |s[2]| == 8 && |s[3]| == 8 && |s[4]| == 6 && |s[5]| == 5 && |s[6]| == 4 && |s[7]| == 8;
    assert s[2][0] == 'r' && s[3][0] == 'e' && s[7][0] == 'l';
  }

  lemma ExecutionJson()
    ensures JsonApart(FieldNames(Execution.Fields()))
  {
    hide JsonName, JsonApart, FieldNames, Distinct;
    PlainExecutionJson();
    TwoWordExecutionJson();
    ExecutionImages();
    ApartByImages(Execution.Fields(), EXECUTION_IMAGES);
  }

  lemma PlainExecutionJson()
    ensures forall name | name in {"service", "revision", "endpoint", "status", "error", "logs"} :: JsonName(name, false) == name
  {
    hide JsonName;
    PlainJson("service");
    PlainJson("revision");
    PlainJson("endpoint");
    PlainJson("status");
    PlainJson("error");
    PlainJson("logs");
  }

  lemma TwoWordExecutionJson()
    ensures JsonName("request_id", false) == "requestId"
    ensures JsonName("log_bytes", false) == "logBytes"
    ensures JsonName("logs_truncated", false) == "logsTruncated"
  {
    hide JsonName;
    TwoWordJson("request", "id");
    TwoWordJson("log", "bytes");
    TwoWordJson("logs", "truncated");
    assert "request_id" == "request" + "_" + "id" && "log_bytes" == "log" + "_" + "bytes" && "logs_truncated" == "logs" + "_" + "truncated";
    assert "request" + "I" + "d" == "requestId" && "log" + "B" + "ytes" == "logBytes" && "logs" + "T" + "runcated" == "logsTruncated";
  }

  // ---------------------------------------------------------------- JSON names of a finished table

  function KeysAt(e: Endpoint, o: Origin): set<string>
    requires o.Path? && IsStructAt(InterfaceOf(e, o.direction), o.segments)
  {
    SchemaAt(InterfaceOf(e, o.direction), o.segments).value.properties.Keys
  }

  /** A message has the keys of its Struct as field names, and `execution` besides at most at the root of a response. */
  lemma FieldNamesOf(t: Table, n: string, e: Endpoint)
    requires n in t.messages && n in t.origins && t.origins[n].Path? && StandsFor(t, n, e)
    ensures var o, names := t.origins[n], FieldNames(t.messages[n].fields);
      && KeysAt(e, o) <= names <= KeysAt(e, o) + {"execution"}
      && (o.direction == Request || o.segments != [] ==> names == KeysAt(e, o))
  {
    hide IsStructAt, SchemaAt, Fits;
    var o, fields := t.origins[n], t.messages[n].fields;
    var keys := Sorted(KeysAt(e, o));
    forall k | k in KeysAt(e, o) ensures k in FieldNames(fields) {
      assert k in keys;
      var i :| 0 <= i < |keys| && keys[i] == k;
      assert fields[i].name == k;
    }
    forall f | f in fields ensures f.name in KeysAt(e, o) || (f.name == "execution" && o.direction == Response && o.segments == []) {
      var i :| 0 <= i < |fields| && fields[i] == f;
      if i < |keys| { assert keys[i] in keys; }
    }
  }

  lemma ObeysSubset(rule: KeyRule, a: set<string>, b: set<string>)
    requires Obeys(rule, b) && a <= b
    ensures Obeys(rule, a)
  {
    SubsetSize(a, b);
  }

  lemma MessageObeys(rule: KeyRule, t: Table, n: string, e: Endpoint)
    requires n in t.messages && n in t.origins && t.origins[n].Path? && StandsFor(t, n, e) && EndpointObeys(rule, e)
    ensures Obeys(rule, FieldNames(t.messages[n].fields))
  {
    var o := t.origins[n];
    FieldNamesOf(t, n, e);
    ObeysAt(rule, InterfaceOf(e, o.direction), o.segments);
    hide Obeys, SchemaObeys;
    if o.direction == Response && o.segments == [] {
      ObeysSubset(rule, FieldNames(t.messages[n].fields), KeysAt(e, o) + {"execution"});
    }
  }

  lemma RootHasExecution(endpoints: seq<Endpoint>, e: Endpoint)
    requires UniqueIds(endpoints) && Build(endpoints).Ok? && e in endpoints && forall x | x in endpoints :: !EmptyResponse(x)
    ensures var t := Build(endpoints).value.table;
      && Pascal(e.id).Some? && ResponseName(Pascal(e.id).value) in t.messages
      && "execution" in FieldNames(t.messages[ResponseName(Pascal(e.id).value)].fields)
  {
    hide Build, ProgressOk;
    BuildSound(endpoints);
    var p := Build(endpoints).value;
    var i :| 0 <= i < |endpoints| && endpoints[i] == e;
    var none: seq<string> := [];
    assert MethodsFollow(none, p.methods, endpoints);
    assert Pascal(endpoints[i].id) == Some(p.methods[|none| + i]);
    OneExecutionPerResponse(endpoints, p.methods[i]);
  }

  lemma EndpointIsObeyed(rule: KeyRule, t: Table, endpoints: seq<Endpoint>, e: Endpoint)
    requires t.messages.Keys == t.origins.Keys && UniqueIds(endpoints) && e in endpoints
    requires AllOwned(t, set x | x in endpoints) && RootsOwned(t, set x | x in endpoints)
    requires Pascal(e.id).Some? && ResponseName(Pascal(e.id).value) in t.messages
    requires "execution" in FieldNames(t.messages[ResponseName(Pascal(e.id).value)].fields)
    requires forall n | n in t.messages :: Obeys(rule, FieldNames(t.messages[n].fields))
    requires forall direction, segments | IsStructAt(InterfaceOf(e, direction), segments) :: HasMessageFor(t, Path(e.id, direction, segments))
    ensures EndpointObeys(rule, e)
  {
    hide AllOwned, StandsFor, Obeys, SchemaObeys;
    forall direction ensures SchemaObeys(rule, InterfaceOf(e, direction)) {
      forall segments | IsStructAt(InterfaceOf(e, direction), segments)
        ensures Obeys(rule, SchemaAt(InterfaceOf(e, direction), segments).value.properties.Keys)
      {
        var n :| n in t.origins && t.origins[n] == Path(e.id, direction, segments);
        StandsForThis(t, n, e, endpoints);
        FieldNamesOf(t, n, e);
        ObeysSubset(rule, KeysAt(e, t.origins[n]), FieldNames(t.messages[n].fields));
      }
      EverywhereObeys(rule, InterfaceOf(e, direction));
    }
    assert e in set x | x in endpoints;
    assert HasRoot(t, e, Response);
    var root := ResponseName(Pascal(e.id).value);
    StandsForThis(t, root, e, endpoints);
    FieldNamesOf(t, root, e);
    assert SchemaObeys(rule, InterfaceOf(e, Request)) && SchemaObeys(rule, InterfaceOf(e, Response));
    assert FieldNames(t.messages[root].fields) == ResponseStruct(e).properties.Keys + {"execution"};
  }

  /** Every message obeys the rule exactly when every Struct does, the metadata field included. */
  lemma TableObeysExactly(rule: KeyRule, endpoints: seq<Endpoint>)
    requires UniqueIds(endpoints) && Build(endpoints).Ok? && forall e | e in endpoints :: !EmptyResponse(e)
    ensures var t := Build(endpoints).value.table;
      (forall n | n in t.messages :: Obeys(rule, FieldNames(t.messages[n].fields))) <==>
      (forall e | e in endpoints :: EndpointObeys(rule, e))
  {
    hide Build, AllOwned, StandsFor, Obeys, EndpointObeys, IsStructAt, RootsOwned, Closed, Rooted, Instrumented, RootsOk;
    MessagesAreStructs(endpoints);
    BuildSound(endpoints);
    var t := Build(endpoints).value.table;
    if forall e | e in endpoints :: EndpointObeys(rule, e) {
      forall n | n in t.messages ensures Obeys(rule, FieldNames(t.messages[n].fields)) {
        TableMessageObeys(rule, t, endpoints, n);
      }
    }
    if forall n | n in t.messages :: Obeys(rule, FieldNames(t.messages[n].fields)) {
      forall e | e in endpoints ensures EndpointObeys(rule, e) {
        RootHasExecution(endpoints, e);
        EndpointIsObeyed(rule, t, endpoints, e);
      }
    }
  }

  lemma TableMessageObeys(rule: KeyRule, t: Table, endpoints: seq<Endpoint>, n: string)
    requires TableOk(t) && n in t.messages && AllOwned(t, set e | e in endpoints)
    requires forall e | e in endpoints :: EndpointObeys(rule, e)
    ensures Obeys(rule, FieldNames(t.messages[n].fields))
  {
    hide StandsFor, Obeys, EndpointObeys, PlatformMessage.Fields;
    assert EntryOk(n, t.origins[n], t.messages[n]);
    match t.origins[n]
    case Platform(k) => PlatformObeys(rule, k);
    case Path(_, _, _) =>
      var e :| e in endpoints && StandsFor(t, n, e);
      MessageObeys(rule, t, n, e);
  }

  lemma PlatformObeys(rule: KeyRule, k: PlatformMessage)
    ensures Obeys(rule, FieldNames(k.Fields()))
  {
    hide PlatformMessage.Fields, JsonApart;
    match rule
    case JsonNames => PlatformJson(k);
    case Capacity =>
      PlatformIsShort(k);
      NameCount(k.Fields());
  }

  lemma PlatformIsShort(k: PlatformMessage)
    ensures |k.Fields()| <= CAPACITY
  {
  }

  lemma {:induction false} NameCount(fields: seq<Field>)
    ensures |FieldNames(fields)| <= |fields|
    ensures DistinctNames(fields) ==> |FieldNames(fields)| == |fields|
  {
    if fields == [] {
      assert FieldNames(fields) == {};
    } else {
      NameCount(fields[1..]);
      assert fields == [fields[0]] + fields[1..];
      assert FieldNames(fields) == {fields[0].name} + FieldNames(fields[1..]);
      if DistinctNames(fields) { FirstNameIsNew(fields); }
    }
  }

  lemma FirstNameIsNew(fields: seq<Field>)
    requires fields != [] && DistinctNames(fields)
    ensures fields[0].name !in FieldNames(fields[1..]) && DistinctNames(fields[1..])
  {
  }

  /** JSON names clash in no message exactly when they clash in no Struct, the metadata field included. */
  lemma TableJsonExactly(endpoints: seq<Endpoint>)
    requires UniqueIds(endpoints) && Build(endpoints).Ok? && forall e | e in endpoints :: !EmptyResponse(e)
    ensures var t := Build(endpoints).value.table;
      (forall n | n in t.messages :: JsonApart(FieldNames(t.messages[n].fields))) <==>
      (forall e | e in endpoints :: JsonFriendlyEndpoint(e))
  {
    hide Build, EndpointObeys, JsonApart;
    TableObeysExactly(JsonNames, endpoints);
    var t := Build(endpoints).value.table;
    assert forall n | n in t.messages ::
      Obeys(JsonNames, FieldNames(t.messages[n].fields)) == JsonApart(FieldNames(t.messages[n].fields));
  }
}
