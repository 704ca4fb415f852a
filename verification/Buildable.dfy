/** Which interfaces can be turned into messages, read off their schemas. */
module Buildable {
  import opened Prelude
  import opened Names
  import opened Numbering
  import opened Messages
  import opened MessageFacts
  import opened EndpointFacts
  import opened Symbols

  // ---------------------------------------------------------------- the conditions

  /** A property that can become a field: an identifier, known types, closed Structs with a name, no List of Lists. */
  predicate Shaped(key: string, schema: Schema)
    decreases schema
  {
    && IsIdentifier(key)
    && match schema
       case Primitive(typeName) => ScalarType(typeName).Some?
       case Date => true
       case DatetimeTz => true
       case Struct(closed, properties) => closed && Pascal(key).Some? && forall k | k in properties :: Shaped(k, properties[k])
       case List(item) => !item.List? && !item.ListWithoutItems? && Shaped(key, item)
       case ListWithoutItems => false
  }

  predicate ShapedStruct(struct: Schema)
    requires struct.Struct?
  {
    forall k | k in struct.properties :: Shaped(k, struct.properties[k])
  }

  /** At every depth, the messages that different properties yield have different names. */
  predicate Separate(name: string, schema: Schema)
    decreases schema, 0
  {
    match schema
    case Struct(_, properties) =>
      && (forall j, k | j in properties && k in properties && j != k ::
            ChildNames(name, j, properties[j]) !! ChildNames(name, k, properties[k]))
      && (forall k | k in properties :: SeparateChild(name, k, properties[k]))
    case List(item) => Separate(name, item)
    case _ => true
  }

  predicate SeparateChild(parent: string, key: string, schema: Schema)
    decreases schema, 1
  {
    Pascal(key).Some? ==> Separate(parent + Pascal(key).value, schema)
  }

  /** One endpoint can be built on its own. */
  predicate Publishable(e: Endpoint) {
    && Pascal(e.id).Some?
    && ShapedStruct(e.RequestSchema()) && Separate(RequestName(Pascal(e.id).value), e.RequestSchema())
    && ShapedStruct(ResponseStruct(e)) && Separate(ResponseName(Pascal(e.id).value), ResponseStruct(e))
    && (e.response.Struct? ==> e.response.closed && "execution" !in e.response.properties)
  }

  /** No two endpoints yield messages of one name. */
  predicate NamesApartIn(endpoints: seq<Endpoint>) {
    forall i, j | 0 <= i < j < |endpoints| :: DerivedNamesOf(endpoints[i]) !! DerivedNamesOf(endpoints[j])
  }

  // ---------------------------------------------------------------- one property

  lemma PlatformIsAdded(t: Table, k: PlatformMessage, direction: Direction)
    requires TableOk(t)
    ensures EnsurePlatform(t, k, direction).Ok? && TableOk(EnsurePlatform(t, k, direction).value)
  {
    if k.Name() in t.origins {
      assert EntryOk(k.Name(), t.origins[k.Name()], t.messages[k.Name()]);
      match t.origins[k.Name()]
      case Platform(j) => SameKind(j, k);
      case Path(_, _, _) => OwnNamesAreOwn(k.Name());
    }
    PlatformKeeps(t, k, direction);
  }

  lemma SameKind(j: PlatformMessage, k: PlatformMessage)
    requires j.Name() == k.Name()
    ensures j == k
  {
  }

  lemma DeclareBuilds(t: Table, nested: string, direction: Direction, o: Origin)
    requires TableOk(t) && OwnName(nested) && o.Path? && Untouched(t, o)
    ensures Declare(t, nested, direction, o).Ok? <==> nested !in PathNames(t)
  {
    if nested in t.origins {
      OwnNamesAreOwn(nested);
      assert EntryOk(nested, t.origins[nested], t.messages[nested]);
      assert !o.Covers(t.origins[nested]);
    }
  }

  /** The names below a property are free in the table and do not clash with each other. */
  ghost predicate FreeBelow(t: Table, parent: string, key: string, schema: Schema) {
    ChildNames(parent, key, schema) !! PathNames(t) && SeparateChild(parent, key, schema)
  }

  lemma {:induction false} FieldBuilds(t: Table, parent: string, name: string, schema: Schema, direction: Direction, o: Origin)
    requires TableOk(t) && OwnName(parent) && o.Path? && Untouched(t, o)
    ensures AddField(t, parent, name, schema, direction, o).Ok? <==> Shaped(name, schema) && FreeBelow(t, parent, name, schema)
    decreases schema, 2, 0
  {
    hide PathNames, EnsurePlatform, AddNested, TableOk, Untouched, IsIdentifier;
    match schema
    case Primitive(_) =>
    case Date => PlatformIsAdded(t, DateValue, direction);
    case DatetimeTz => PlatformIsAdded(t, DatetimeTzValue, direction);
    case Struct(closed, _) =>
      if Pascal(name).Some? {
        var nested := parent + Pascal(name).value;
        assert OwnName(nested);
        NestedBuilds(t, nested, schema, direction, o);
      }
    case List(item) =>
      ItemUntouched(t, o);
      FieldBuilds(t, parent, name, item, direction, o.Child("items"));
      assert ChildNames(parent, name, schema) == ChildNames(parent, name, item);
      assert SeparateChild(parent, name, schema) == SeparateChild(parent, name, item);
    case ListWithoutItems =>
  }

  // ---------------------------------------------------------------- the properties of one Struct

  lemma {:induction false} NestedBuilds(t: Table, nested: string, struct: Schema, direction: Direction, o: Origin)
    requires TableOk(t) && OwnName(nested) && o.Path? && Untouched(t, o) && struct.Struct?
    ensures AddNested(t, nested, struct, direction, o).Ok? <==>
      ShapedStruct(struct) && Separate(nested, struct) && DerivedFrom(nested, struct) !! PathNames(t)
    decreases struct, 1, 0
  {
    hide PathNames, Declare, AddProperties, TableOk, Untouched, KeysFree, DerivedFrom, Separate, ShapedStruct;
    var keys := Sorted(struct.properties.Keys);
    DeclareBuilds(t, nested, direction, o);
    AllBelow(nested, struct, keys);
    if Declare(t, nested, direction, o).Ok? {
      DeclareFresh(t, nested, struct, direction, o);
      DeclaredNames(t, nested, direction, o);
      var d := Declare(t, nested, direction, o).value;
      DeclaredPath(t, d, nested, o);
      PropertiesBuild(d, nested, struct, keys, direction, o);
      FreeExactly(t, d, nested, struct, keys);
    }
  }

  lemma DeclaredPath(t: Table, d: Table, nested: string, o: Origin)
    requires d.origins == t.origins[nested := o] && TableOk(d)
    ensures nested in d.messages && d.origins[nested] == o
  {
    hide EntryOk;
  }

  /** The named properties can be added one after the other. */
  ghost predicate KeysFree(t: Table, owner: string, struct: Schema, keys: seq<string>)
    requires struct.Struct? && forall k | k in keys :: k in struct.properties
  {
    && (forall k | k in keys :: Shaped(k, struct.properties[k]) && FreeBelow(t, owner, k, struct.properties[k]))
    && (forall j, k | j in keys && k in keys && j != k ::
          ChildNames(owner, j, struct.properties[j]) !! ChildNames(owner, k, struct.properties[k]))
  }

  lemma FreeExactly(t: Table, d: Table, nested: string, struct: Schema, keys: seq<string>)
    requires struct.Struct? && forall k :: k in keys <==> k in struct.properties
    requires PathNames(d) == PathNames(t) + {nested}
    ensures KeysFree(d, nested, struct, keys) <==>
      ShapedStruct(struct) && Separate(nested, struct) && NamesBelow(nested, struct, keys) !! PathNames(t)
  {
    hide PathNames, ChildNames, Shaped, SeparateChild;
    forall k | k in keys ensures nested !in ChildNames(nested, k, struct.properties[k]) {
      ChildrenAreLonger(nested, k, struct.properties[k]);
    }
    if KeysFree(d, nested, struct, keys) {
      forall n | n in NamesBelow(nested, struct, keys) ensures n !in PathNames(t) {
        var k :| k in keys && n in ChildNames(nested, k, struct.properties[k]);
        assert FreeBelow(d, nested, k, struct.properties[k]);
      }
    }
    if ShapedStruct(struct) && Separate(nested, struct) && NamesBelow(nested, struct, keys) !! PathNames(t) {
      forall k | k in keys ensures FreeBelow(d, nested, k, struct.properties[k]) {
        assert ChildNames(nested, k, struct.properties[k]) <= NamesBelow(nested, struct, keys);
      }
    }
  }

  lemma ChildrenAreLonger(parent: string, key: string, schema: Schema)
    ensures parent !in ChildNames(parent, key, schema)
  {
    if Pascal(key).Some? {
      var nested := parent + Pascal(key).value;
      assert |nested| > |parent|;
      if parent in DerivedFrom(nested, schema) { DerivedExtend(nested, schema, parent); }
    }
  }

  lemma {:induction false} PropertiesBuild(t: Table, owner: string, struct: Schema, names: seq<string>, direction: Direction, o: Origin)
    requires TableOk(t) && owner in t.messages && t.origins[owner].Path?
    requires o.Path? && struct.Struct? && Distinct(names)
    requires forall n | n in names :: n in struct.properties && Untouched(t, o.Child(n))
    ensures AddProperties(t, owner, struct, names, direction, o).Ok? <==> KeysFree(t, owner, struct, names)
    decreases struct, 0, |names|
  {
    if names != [] {
      hide TableOk, Untouched, Preserves, NewWithin, AddField, Append, Distinct, KeysFree, FreeBelow, Shaped, PathNames;
      var n := names[0];
      PathIsOwn(t, owner);
      FieldBuilds(t, owner, n, struct.properties[n], direction, o.Child(n));
      FirstKey(t, owner, struct, names);
      if AddField(t, owner, n, struct.properties[n], direction, o.Child(n)).Ok? {
        AddFieldKeeps(t, owner, n, struct.properties[n], direction, o.Child(n));
        AddFieldNames(t, owner, n, struct.properties[n], direction, o.Child(n));
        var (d, f) := AddField(t, owner, n, struct.properties[n], direction, o.Child(n)).value;
        var a := Append(d, owner, [f]);
        PropertyAdded(t, d, a, owner, names, o, f);
        AppendedNames(d, owner, f);
        PropertiesBuild(a, owner, struct, names[1..], direction, o);
        KeysSplit(t, a, owner, struct, names);
      }
    }
  }

  lemma AppendedNames(d: Table, owner: string, f: Field)
    ensures PathNames(Append(d, owner, [f])) == PathNames(d)
  {
  }

  lemma FirstKey(t: Table, owner: string, struct: Schema, keys: seq<string>)
    requires struct.Struct? && keys != [] && forall k | k in keys :: k in struct.properties
    ensures KeysFree(t, owner, struct, keys) ==>
      Shaped(keys[0], struct.properties[keys[0]]) && FreeBelow(t, owner, keys[0], struct.properties[keys[0]])
  {
    hide Shaped, FreeBelow, ChildNames;
  }

  lemma KeysSplit(t: Table, a: Table, owner: string, struct: Schema, keys: seq<string>)
    requires struct.Struct? && keys != [] && Distinct(keys) && forall k | k in keys :: k in struct.properties
    requires PathNames(a) == PathNames(t) + ChildNames(owner, keys[0], struct.properties[keys[0]])
    requires Shaped(keys[0], struct.properties[keys[0]]) && FreeBelow(t, owner, keys[0], struct.properties[keys[0]])
    ensures KeysFree(t, owner, struct, keys) <==> KeysFree(a, owner, struct, keys[1..])
  {
    hide Shaped, ChildNames, SeparateChild, PathNames;
    assert keys == [keys[0]] + keys[1..];
    assert keys[0] !in keys[1..];
    forall k | k in keys[1..]
      ensures FreeBelow(a, owner, k, struct.properties[k]) <==>
        FreeBelow(t, owner, k, struct.properties[k])
        && ChildNames(owner, k, struct.properties[k]) !! ChildNames(owner, keys[0], struct.properties[keys[0]])
    {
    }
  }

  // ---------------------------------------------------------------- one endpoint

  lemma RootsApart(rpc: string, request: Schema, response: Schema)
    ensures DerivedFrom(RequestName(rpc), request) !! DerivedFrom(ResponseName(rpc), response)
  {
    var a, b := RequestName(rpc), ResponseName(rpc);
    assert a[|rpc| + 2] == 'q' && b[|rpc| + 2] == 's';
    forall n | n in DerivedFrom(a, request) ensures n !in DerivedFrom(b, response) {
      DerivedExtend(a, request, n);
      if n in DerivedFrom(b, response) { DerivedExtend(b, response, n); }
    }
  }

  lemma NewEndpoint(t: Table, ids: set<string>, id: string, direction: Direction)
    requires OwnedBy(t, ids) && id !in ids
    ensures Untouched(t, Path(id, direction, []))
  {
  }

  /** The messages of an endpoint can be added exactly when it is publishable and its names are free. */
  lemma MessagesBuild(t: Table, rpc: string, e: Endpoint, ids: set<string>)
    requires SoundTable(t) && OwnedBy(t, ids) && e.id !in ids && Pascal(e.id) == Some(rpc)
    ensures AddMessages(t, rpc, e).Ok? <==> Publishable(e) && DerivedNamesOf(e) !! PathNames(t)
  {
    hide AddNested, TableOk, Closed, OwnedBy, Untouched, PathNames, Pascal, DerivedFrom, Separate, ShapedStruct, RequestAdded, ResponseAdded, EnsureExecution;
    DerivedNames(rpc, "");
    NewEndpoint(t, ids, e.id, Request);
    NestedBuilds(t, RequestName(rpc), e.RequestSchema(), Request, Path(e.id, Request, []));
    if AddRequest(t, rpc, e).Ok? {
      var t1 := AddRequest(t, rpc, e).value;
      RequestStep(t, rpc, e, ids);
      RequestIsSound(t, t1, rpc, ids + {e.id});
      AddNestedNames(t, RequestName(rpc), e.RequestSchema(), Request, Path(e.id, Request, []));
      NestedBuilds(t1, ResponseName(rpc), ResponseStruct(e), Response, Path(e.id, Response, []));
      RootsApart(rpc, e.RequestSchema(), ResponseStruct(e));
      if AddResponse(t1, rpc, e).Ok? {
        ResponseStep(t1, rpc, e, ids + {e.id});
        ExecutionIsAdded(t1, AddResponse(t1, rpc, e).value, rpc, ids + {e.id});
      }
    }
  }

  lemma RequestIsSound(t: Table, r: Table, rpc: string, ids: set<string>)
    requires RequestAdded(t, r, rpc, ids)
    ensures SoundTable(r) && OwnedBy(r, ids)
  {
  }

  lemma ExecutionIsAdded(t: Table, r: Table, rpc: string, ids: set<string>)
    requires ResponseAdded(t, r, rpc, ids)
    ensures EnsureExecution(r).Ok?
  {
    hide EnsurePlatform, TableOk, Closed, AddedBelow, Preserves, OwnedBy;
    PlatformIsAdded(r, ExecutionLog, Response);
    PlatformIsAdded(EnsurePlatform(r, ExecutionLog, Response).value, Execution, Response);
  }

  /** An endpoint can be added exactly when, besides, its response local is bound. */
  lemma EndpointBuilds(p: Progress, e: Endpoint, ids: set<string>)
    requires ProgressOk(p, ids) && e.id !in ids
    ensures AddEndpoint(p, e).Ok? <==>
      Publishable(e) && DerivedNamesOf(e) !! PathNames(p.table) && (p.response.Some? || !EmptyResponse(e))
  {
    hide AddMessages, SoundTable, OwnedBy, Rooted, Instrumented, HasExecution, Distinct, Pascal, Publishable, DerivedFrom;
    if Pascal(e.id).Some? {
      var rpc := Pascal(e.id).value;
      MessagesBuild(p.table, rpc, e, ids);
      if rpc in p.methods { MethodIsTaken(p, rpc, e); }
    } else {
      assert !Publishable(e) by { Nameless(e); }
    }
  }

  lemma Nameless(e: Endpoint)
    requires Pascal(e.id).None?
    ensures !Publishable(e)
  {
  }

  lemma MethodIsTaken(p: Progress, rpc: string, e: Endpoint)
    requires rpc in p.methods && RootsOk(p.table, rpc) && Pascal(e.id) == Some(rpc)
    ensures !(DerivedNamesOf(e) !! PathNames(p.table))
  {
    assert ResponseName(rpc) in DerivedFrom(ResponseName(rpc), ResponseStruct(e));
    assert ResponseName(rpc) in DerivedNamesOf(e) && ResponseName(rpc) in PathNames(p.table);
  }

  // ---------------------------------------------------------------- all endpoints

  ghost predicate LoopFree(t: Table, endpoints: seq<Endpoint>) {
    && (forall e | e in endpoints :: Publishable(e) && DerivedNamesOf(e) !! PathNames(t))
    && NamesApartIn(endpoints)
  }

  lemma {:induction false} LoopBuilds(p: Progress, endpoints: seq<Endpoint>, ids: set<string>)
    requires ProgressOk(p, ids) && UniqueIds(endpoints) && Ids(endpoints) !! ids
    ensures AddEndpoints(p, endpoints).Ok? <==>
      LoopFree(p.table, endpoints) && (p.response.Some? || endpoints == [] || !EmptyResponse(endpoints[0]))
    decreases |endpoints|
  {
    hide ProgressOk, AddEndpoint, LoopFree, EmptyResponse;
    if endpoints == [] {
      NothingToAdd(p.table);
    } else {
      var e := endpoints[0];
      IdsSplit(endpoints);
      EndpointBuilds(p, e, ids);
      FirstIsFree(p.table, endpoints);
      if AddEndpoint(p, e).Ok? {
        var q := AddEndpoint(p, e).value;
        EndpointStep(p, e, ids);
        EndpointNames(p, e);
        Bound(p, e);
        LoopBuilds(q, endpoints[1..], ids + {e.id});
        LoopSplit(p.table, q.table, endpoints);
      }
    }
  }

  lemma Bound(p: Progress, e: Endpoint)
    requires AddEndpoint(p, e).Ok?
    ensures AddEndpoint(p, e).value.response.Some?
  {
    hide AddMessages, Pascal;
  }

  lemma NothingToAdd(t: Table)
    ensures LoopFree(t, [])
  {
  }

  lemma FirstIsFree(t: Table, endpoints: seq<Endpoint>)
    requires endpoints != []
    ensures LoopFree(t, endpoints) ==> Publishable(endpoints[0]) && DerivedNamesOf(endpoints[0]) !! PathNames(t)
  {
    hide Publishable, DerivedNamesOf, PathNames, NamesApartIn;
  }

  lemma LoopSplit(t: Table, a: Table, endpoints: seq<Endpoint>)
    requires endpoints != [] && PathNames(a) == PathNames(t) + DerivedNamesOf(endpoints[0])
    requires Publishable(endpoints[0]) && DerivedNamesOf(endpoints[0]) !! PathNames(t)
    ensures LoopFree(t, endpoints) <==> LoopFree(a, endpoints[1..])
  {
    hide Publishable, DerivedNamesOf, PathNames;
    var rest := endpoints[1..];
    assert endpoints == [endpoints[0]] + rest;
    if LoopFree(t, endpoints) {
      forall e | e in rest ensures DerivedNamesOf(e) !! PathNames(a) {
        var i :| 0 <= i < |rest| && rest[i] == e;
        assert DerivedNamesOf(endpoints[0]) !! DerivedNamesOf(endpoints[i + 1]);
      }
      forall i, j | 0 <= i < j < |rest| ensures DerivedNamesOf(rest[i]) !! DerivedNamesOf(rest[j]) {
        assert DerivedNamesOf(endpoints[i + 1]) !! DerivedNamesOf(endpoints[j + 1]);
      }
    }
    if LoopFree(a, rest) {
      forall i, j | 0 <= i < j < |endpoints| ensures DerivedNamesOf(endpoints[i]) !! DerivedNamesOf(endpoints[j]) {
        assert endpoints[j] == rest[j - 1] && rest[j - 1] in rest;
        if i > 0 { assert DerivedNamesOf(rest[i - 1]) !! DerivedNamesOf(rest[j - 1]); }
      }
    }
  }

  /** The interface can be turned into messages exactly when its schemas say so. */
  lemma BuildsExactly(endpoints: seq<Endpoint>)
    requires UniqueIds(endpoints)
    ensures Build(endpoints).Ok? <==>
      && (forall e | e in endpoints :: Publishable(e))
      && NamesApartIn(endpoints)
      && (endpoints == [] || !EmptyResponse(endpoints[0]))
  {
    hide ProgressOk, AddEndpoints, Publishable, NamesApartIn, EmptyResponse;
    StartOk();
    LoopBuilds(START, endpoints, {});
    NoNames();
  }

  lemma NoNames()
    ensures PathNames(EMPTY_TABLE) == {}
  {
  }
}
