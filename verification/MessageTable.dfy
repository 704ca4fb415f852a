/** The dictionaries of messages and origins, filled in place while schemas are walked. */
module MessageTable {
  import opened Prelude
  import opened Names
  import opened Numbering
  import opened Messages

  class Builder {
    var messages: map<string, MessageShape>
    var origins: map<string, Origin>

    ghost function Shapes(): set<object>
      reads this
    {
      set n | n in messages :: messages[n]
    }

    /** Each object is filed under its own name. */
    ghost predicate Valid()
      reads this
    {
      forall n | n in messages :: messages[n].name == n
    }

    ghost function View(): Table
      reads this, Shapes()
    {
      Table(map n | n in messages :: messages[n].Value(), origins)
    }

    /** Every object stays where it was; anything else in the dictionary is new. */
    twostate predicate Grown()
      reads this
    {
      && (forall n | n in old(messages) :: n in messages && messages[n] == old(messages[n]))
      && (forall n | n in messages && n !in old(messages) :: fresh(messages[n]))
    }

    constructor ()
      ensures Valid() && View() == EMPTY_TABLE && Shapes() == {}
    {
      messages, origins := map[], map[];
    }

    method Message(name: string, direction: Direction, origin: Origin) returns (r: Result<MessageShape, Failure>)
      requires Valid()
      modifies this
      ensures Valid() && Grown()
      ensures match Declare(old(View()), name, direction, origin)
        case Err(e) => r == Err(e)
        case Ok(t) => View() == t && r.Ok? && name in messages && r.value == messages[name]
    {
      if name in origins && origins[name] != origin {
        return Err(GenerationError);
      }
      r := SetDefault(name, direction);
      origins := origins[name := origin];
    }

    /** The message of the dictionary under the name, which is created if it is not there. */
    method SetDefault(name: string, direction: Direction) returns (r: Result<MessageShape, Failure>)
      requires Valid()
      modifies this`messages
      ensures Valid() && Grown()
      ensures r.Ok? && name in messages && r.value == messages[name]
      ensures View().messages == if name in old(messages) then old(View()).messages
        else old(View()).messages[name := Shape(direction, [], {}, {})]
    {
      hide MessageShape.Value;
      if name in messages { return Ok(messages[name]); }
      var shape := new MessageShape(name, direction);
      messages := messages[name := shape];
      return Ok(shape);
    }

    /** Appends to the field list of a message of the dictionary. */
    method Extend(name: string, shape: MessageShape, added: seq<Field>)
      requires Valid() && name in messages && messages[name] == shape
      modifies shape
      ensures shape.fields == old(shape.fields) + added
      ensures View() == Append(old(View()), name, added)
    {
      shape.fields := shape.fields + added;
      forall n | n in messages && n != name ensures messages[n].Value() == old(messages[n].Value()) {
        assert messages[n] != shape;
      }
      assert View() == Append(old(View()), name, added);
    }

    method EnsurePlatformMessage(kind: PlatformMessage, direction: Direction) returns (r: Result<MessageShape, Failure>)
      requires Valid()
      modifies this, Shapes()
      ensures Valid() && Grown()
      ensures match EnsurePlatform(old(View()), kind, direction)
        case Err(e) => r == Err(e)
        case Ok(t) => View() == t && r.Ok?
    {
      r := Message(kind.Name(), direction, Platform(kind));
      if r.Ok? && r.value.fields == [] {
        Extend(kind.Name(), r.value, kind.Fields());
      }
    }

    /** The field for one schema; nested Structs become messages of their own. */
    method FieldFromSchema(parent: string, name: string, schema: Schema, direction: Direction, origin: Origin)
      returns (r: Result<Field, Failure>)
      requires Valid() && origin.Path?
      modifies this, Shapes()
      ensures Valid() && Grown()
      ensures match AddField(old(View()), parent, name, schema, direction, origin)
        case Err(e) => r == Err(e)
        case Ok((t, f)) => View() == t && r == Ok(f)
      decreases schema, 4
    {
      if !IsIdentifier(name) {
        return Err(GenerationError);
      }
      match schema {
        case Primitive(typeName) =>
          var scalar := ScalarType(typeName);
          return if scalar.Some? then Ok(Plain(name, scalar.value)) else Err(GenerationError);
        case Date =>
          var ensured := EnsurePlatformMessage(DateValue, direction);
          return if ensured.Ok? then Ok(Plain(name, DateValue.Name())) else Err(ensured.error);
        case DatetimeTz =>
          var ensured := EnsurePlatformMessage(DatetimeTzValue, direction);
          return if ensured.Ok? then Ok(Plain(name, DatetimeTzValue.Name())) else Err(ensured.error);
        case Struct(closed, properties) =>
          if !closed || Pascal(name).None? {
            return Err(GenerationError);
          }
          var nested := parent + Pascal(name).value;
          var filled := NestedMessage(nested, schema, direction, origin);
          return if filled.Ok? then Ok(Plain(name, nested)) else Err(filled.error);
        case List(item) =>
          if item.List? || item.ListWithoutItems? {
            return Err(GenerationError);
          }
          r := FieldFromSchema(parent, name, item, direction, origin.Child("items"));
          if r.Ok? {
            r := Ok(r.value.(repeated := true));
          }
        case ListWithoutItems =>
          return Err(GenerationError);
      }
    }

    /** Appends the field for one property to its message. */
    method AppendProperty(owner: string, shape: MessageShape, name: string, struct: Schema, direction: Direction, origin: Origin)
      returns (r: Result<(), Failure>)
      requires Valid() && origin.Path? && struct.Struct? && name in struct.properties
      requires owner in messages && messages[owner] == shape
      modifies this, Shapes()
      ensures Valid() && Grown()
      ensures match AddField(old(View()), owner, name, struct.properties[name], direction, origin.Child(name))
        case Err(e) => r == Err(e)
        case Ok((t, f)) => View() == Append(t, owner, [f]) && r == Ok(())
      decreases struct, 1
    {
      var field := FieldFromSchema(owner, name, struct.properties[name], direction, origin.Child(name));
      if field.Err? {
        return Err(field.error);
      }
      Extend(owner, shape, [field.value]);
      r := Ok(());
    }

    /** Appends one field for each of the named properties. */
    method AppendProperties(owner: string, shape: MessageShape, names: seq<string>, struct: Schema, direction: Direction, origin: Origin)
      returns (r: Result<(), Failure>)
      requires Valid() && origin.Path? && struct.Struct? && forall n | n in names :: n in struct.properties
      requires owner in messages && messages[owner] == shape
      modifies this, Shapes()
      ensures Valid() && Grown()
      ensures match AddProperties(old(View()), owner, struct, names, direction, origin)
        case Err(e) => r == Err(e)
        case Ok(t) => View() == t && r == Ok(())
      decreases struct, 2
    {
      hide View, Valid, AddField, Append, AddProperties;
      ghost var all := AddProperties(View(), owner, struct, names, direction, origin);
      var i := 0;
      assert names[0..] == names;
      while i < |names|
        invariant 0 <= i <= |names|
        invariant Valid() && Grown() && owner in messages && messages[owner] == shape
        invariant all == AddProperties(View(), owner, struct, names[i..], direction, origin)
      {
        ghost var before := View();
        r := AppendProperty(owner, shape, names[i], struct, direction, origin);
        PropertiesStep(before, owner, struct, names, i, direction, origin);
        if r.Err? {
          return;
        }
        i := i + 1;
      }
      PropertiesDone(View(), owner, struct, names[i..], direction, origin);
      r := Ok(());
    }

    /** Declares the message of a Struct and fills it in key order. */
    method NestedMessage(name: string, struct: Schema, direction: Direction, origin: Origin)
      returns (r: Result<MessageShape, Failure>)
      requires Valid() && origin.Path? && struct.Struct?
      modifies this, Shapes()
      ensures Valid() && Grown()
      ensures match AddNested(old(View()), name, struct, direction, origin)
        case Err(e) => r == Err(e)
        case Ok(t) => View() == t && r.Ok? && name in messages && r.value == messages[name]
      decreases struct, 3
    {
      hide View, Valid, AddProperties, Declare;
      r := Message(name, direction, origin);
      if r.Ok? {
        var added := AppendProperties(name, r.value, Sorted(struct.properties.Keys), struct, direction, origin);
        if added.Err? {
          r := Err(added.error);
        }
      }
    }

    /** The request, response and execution messages of one endpoint; r is the response message. */
    method EndpointMessages(rpc: string, e: Endpoint) returns (r: Result<MessageShape, Failure>)
      requires Valid()
      modifies this, Shapes()
      ensures Valid() && Grown()
      ensures match AddMessages(old(View()), rpc, e)
        case Err(f) => r == Err(f)
        case Ok(t) => View() == t && r.Ok? && Files(ResponseName(rpc), r.value)
    {
      hide View, Valid, AddNested, Declare, RequestName, ResponseName, EnsurePlatform;
      r := NestedMessage(RequestName(rpc), e.RequestSchema(), Request, Path(e.id, Request, []));
      if r.Err? {
        return;
      }
      if e.response.Struct? && (!e.response.closed || "execution" in e.response.properties) {
        return Err(GenerationError);
      }
      r := NestedMessage(ResponseName(rpc), ResponseStruct(e), Response, Path(e.id, Response, []));
      if r.Err? {
        return;
      }
      var log := EnsurePlatformMessage(ExecutionLog, Response);
      if log.Err? {
        return Err(log.error);
      }
      var execution := EnsurePlatformMessage(Execution, Response);
      if execution.Err? {
        return Err(execution.error);
      }
    }

    /** The object is in the dictionary under the name. */
    ghost predicate Files(name: string, shape: MessageShape)
      reads this
    {
      name in messages && messages[name] == shape
    }

    /** The loop over endpoints. */
    method DeclareEndpoints(endpoints: seq<Endpoint>) returns (r: Result<seq<string>, Failure>)
      requires Valid()
      modifies this, Shapes()
      ensures Valid() && Grown()
      ensures match AddEndpoints(Progress(old(View()), [], None), endpoints)
        case Err(f) => r == Err(f)
        case Ok(p) => View() == p.table && r == Ok(p.methods)
    {
      hide View, AddMessages, Append, AddEndpoints;
      ghost var all := AddEndpoints(Progress(View(), [], None), endpoints);
      var methods: seq<string> := [];
      var response: MessageShape? := null;
      var i := 0;
      assert endpoints[0..] == endpoints;
      while i < |endpoints|
        invariant 0 <= i <= |endpoints|
        invariant Valid() && Grown() && (response != null ==> Files(response.name, response))
        invariant all == AddEndpoints(Progress(View(), methods, NameOf(response)), endpoints[i..])
      {
        ghost var before := Progress(View(), methods, NameOf(response));
        EndpointsStep(before, endpoints, i);
        var e := endpoints[i];
        var rpc := Pascal(e.id);
        if rpc.None? || rpc.value in methods {
          return Err(GenerationError);
        }
        var declared := EndpointMessages(rpc.value, e);
        if declared.Err? {
          return Err(declared.error);
        }
        if !EmptyResponse(e) {
          response := declared.value;
        }
        if response == null {
          return Err(UnboundResponse);
        }
        Extend(response.name, response, [Plain("execution", Execution.Name())]);
        methods := methods + [rpc.value];
        i := i + 1;
      }
      EndpointsDone(Progress(View(), methods, NameOf(response)), endpoints[i..]);
      r := Ok(methods);
    }
  }

  ghost function NameOf(shape: MessageShape?): Option<string> {
    if shape == null then None else Some(shape.name)
  }

  lemma EndpointsStep(p: Progress, endpoints: seq<Endpoint>, i: nat)
    requires i < |endpoints|
    ensures AddEndpoints(p, endpoints[i..]) == match AddEndpoint(p, endpoints[i])
      case Err(f) => Err(f)
      case Ok(q) => AddEndpoints(q, endpoints[i+1..])
  {
    assert endpoints[i..][0] == endpoints[i] && endpoints[i..][1..] == endpoints[i+1..];
  }

  lemma EndpointsDone(p: Progress, endpoints: seq<Endpoint>)
    requires endpoints == []
    ensures AddEndpoints(p, endpoints) == Ok(p)
  {
  }

  lemma PropertiesDone(t: Table, owner: string, struct: Schema, names: seq<string>, direction: Direction, origin: Origin)
    requires origin.Path? && struct.Struct? && names == []
    ensures AddProperties(t, owner, struct, names, direction, origin) == Ok(t)
  {
  }

  lemma PropertiesStep(t: Table, owner: string, struct: Schema, names: seq<string>, i: nat, direction: Direction, origin: Origin)
    requires origin.Path? && struct.Struct? && i < |names| && forall n | n in names :: n in struct.properties
    ensures AddProperties(t, owner, struct, names[i..], direction, origin)
      == match AddField(t, owner, names[i], struct.properties[names[i]], direction, origin.Child(names[i]))
         case Err(e) => Err(e)
         case Ok((d, f)) => AddProperties(Append(d, owner, [f]), owner, struct, names[i+1..], direction, origin)
  {
    assert names[i..][0] == names[i] && names[i..][1..] == names[i+1..];
  }
}
