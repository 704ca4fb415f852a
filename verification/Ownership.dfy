/** Each Struct of the interface owns exactly one message, and its fields are its properties. */
module Ownership {
  import opened Prelude
  import opened Names
  import opened Numbering
  import opened Messages
  import opened MessageFacts
  import opened EndpointFacts

  /** The schema found by following a path: property names, and "items" for the item of a List. */
  function SchemaAt(schema: Schema, segments: seq<string>): Option<Schema>
    decreases |segments|
  {
    if segments == [] then Some(schema)
    else match schema
      case Struct(_, properties) =>
        if segments[0] in properties then SchemaAt(properties[segments[0]], segments[1..]) else None
      case List(item) =>
        if segments[0] == "items" then SchemaAt(item, segments[1..]) else None
      case _ => None
  }

  predicate IsStructAt(schema: Schema, segments: seq<string>) {
    SchemaAt(schema, segments).Some? && SchemaAt(schema, segments).value.Struct?
  }

  /** The field stands for the schema at the path o. */
  predicate Fits(t: Table, schema: Schema, o: Origin, f: Field)
    requires o.Path?
    decreases schema
  {
    match schema
    case Primitive(typeName) => ScalarType(typeName) == Some(f.typeName) && !f.repeated
    case Date => f.typeName == DateValue.Name() && !f.repeated
    case DatetimeTz => f.typeName == DatetimeTzValue.Name() && !f.repeated
    case Struct(_, _) => f.typeName in t.origins && t.origins[f.typeName] == o && !f.repeated
    case List(item) => f.repeated && Fits(t, item, o.Child("items"), f.(repeated := false))
    case ListWithoutItems => false
  }

  /** The first fields of the message are the properties of the Struct, in key order, each fitting its schema. */
  ghost predicate Describes(t: Table, n: string, struct: Schema)
    requires n in t.messages && n in t.origins && t.origins[n].Path? && struct.Struct?
  {
    var keys := Sorted(struct.properties.Keys);
    && |keys| <= |t.messages[n].fields|
    && forall i | 0 <= i < |keys| ::
        && t.messages[n].fields[i].name == keys[i]
        && keys[i] in struct.properties
        && Fits(t, struct.properties[keys[i]], t.origins[n].Child(keys[i]), t.messages[n].fields[i])
  }

  /** The message n stands for a Struct found below the path o in the schema, and for nothing more. */
  ghost predicate OwnedBelow(t: Table, n: string, schema: Schema, o: Origin)
    requires n in t.messages && n in t.origins && t.origins[n].Path? && o.Path?
  {
    && o.Covers(t.origins[n]) && t.messages[n].direction == o.direction
    && var segments := t.origins[n].segments[|o.segments|..];
       && IsStructAt(schema, segments)
       && Describes(t, n, SchemaAt(schema, segments).value)
       && |t.messages[n].fields| == |Sorted(SchemaAt(schema, segments).value.properties.Keys)|
  }

  ghost predicate AddedOwned(t: Table, r: Table, schema: Schema, o: Origin)
    requires o.Path?
  {
    forall n | n in r.messages && n !in t.messages && n in r.origins && r.origins[n].Path? :: OwnedBelow(r, n, schema, o)
  }

  lemma {:induction false} FitsKept(a: Table, b: Table, schema: Schema, o: Origin, f: Field)
    requires o.Path? && Fits(a, schema, o, f)
    requires forall n | n in a.origins :: n in b.origins && b.origins[n] == a.origins[n]
    ensures Fits(b, schema, o, f)
    decreases schema
  {
    match schema
    case List(item) => FitsKept(a, b, item, o.Child("items"), f.(repeated := false));
    case _ =>
  }

  lemma DescribesKept(a: Table, b: Table, n: string, struct: Schema)
    requires n in a.messages && n in a.origins && a.origins[n].Path? && struct.Struct? && Describes(a, n, struct)
    requires n in b.messages && a.messages[n].fields <= b.messages[n].fields
    requires forall m | m in a.origins :: m in b.origins && b.origins[m] == a.origins[m]
    ensures Describes(b, n, struct)
  {
    var keys := Sorted(struct.properties.Keys);
    forall i | 0 <= i < |keys|
      ensures b.messages[n].fields[i] == a.messages[n].fields[i]
      ensures Fits(b, struct.properties[keys[i]], b.origins[n].Child(keys[i]), b.messages[n].fields[i])
    {
      FitsKept(a, b, struct.properties[keys[i]], a.origins[n].Child(keys[i]), a.messages[n].fields[i]);
    }
  }

  /** A Struct below the property k is a Struct below the whole. */
  lemma OwnedDeeper(t: Table, n: string, struct: Schema, o: Origin, k: string)
    requires n in t.messages && n in t.origins && t.origins[n].Path? && o.Path?
    requires struct.Struct? && k in struct.properties && OwnedBelow(t, n, struct.properties[k], o.Child(k))
    ensures OwnedBelow(t, n, struct, o)
  {
    var deep := t.origins[n].segments;
    assert o.segments <= o.Child(k).segments;
    assert deep[|o.segments|..][0] == k && deep[|o.segments|..][1..] == deep[|o.Child(k).segments|..];
  }

  lemma OwnedInItem(t: Table, n: string, list: Schema, o: Origin)
    requires n in t.messages && n in t.origins && t.origins[n].Path? && o.Path?
    requires list.List? && OwnedBelow(t, n, list.item, o.Child("items"))
    ensures OwnedBelow(t, n, list, o)
  {
    var deep := t.origins[n].segments;
    assert o.segments <= o.Child("items").segments;
    assert deep[|o.segments|..][0] == "items" && deep[|o.segments|..][1..] == deep[|o.Child("items").segments|..];
  }

  lemma OwnedKept(a: Table, b: Table, n: string, schema: Schema, o: Origin)
    requires n in a.messages && n in a.origins && a.origins[n].Path? && o.Path? && OwnedBelow(a, n, schema, o)
    requires n in b.messages && b.messages[n] == a.messages[n]
    requires forall m | m in a.origins :: m in b.origins && b.origins[m] == a.origins[m]
    ensures OwnedBelow(b, n, schema, o)
  {
    DescribesKept(a, b, n, SchemaAt(schema, a.origins[n].segments[|o.segments|..]).value);
  }

  lemma PreservesOrigins(a: Table, b: Table, grown: set<string>)
    requires TableOk(a) && Preserves(a, b, grown)
    ensures forall m | m in a.origins :: m in b.origins && b.origins[m] == a.origins[m]
  {
  }

  lemma {:induction false} AddFieldOwns(t: Table, parent: string, name: string, schema: Schema, direction: Direction, o: Origin)
    requires TableOk(t) && OwnName(parent) && o.Path? && o.direction == direction && Untouched(t, o)
    requires AddField(t, parent, name, schema, direction, o).Ok?
    ensures var (r, f) := AddField(t, parent, name, schema, direction, o).value;
      Fits(r, schema, o, f) && AddedOwned(t, r, schema, o)
    decreases schema, 2, 0
  {
    hide AddedOwned, OwnedBelow, TableOk, Untouched, EnsurePlatform, AddNested, PlatformMessage.Name, Folded, AlnumOnly, Declare;
    match schema
    case Primitive(typeName) => NothingAddedOwned(t, schema, o);
    case Date => PlatformOwned(t, DateValue, direction, schema, o);
    case DatetimeTz => PlatformOwned(t, DatetimeTzValue, direction, schema, o);
    case Struct(closed, properties) =>
      var nested := parent + Pascal(name).value;
      assert OwnName(nested);
      AddNestedOwns(t, nested, schema, direction, o);
    case List(item) =>
      ItemUntouched(t, o);
      AddFieldOwns(t, parent, name, item, direction, o.Child("items"));
      var (r, f) := AddField(t, parent, name, item, direction, o.Child("items")).value;
      hide Fits;
      ItemFits(r, schema, o, f);
      ItemsOwned(t, r, schema, o);
    case ListWithoutItems =>
  }

  lemma NothingAddedOwned(t: Table, schema: Schema, o: Origin)
    requires o.Path?
    ensures AddedOwned(t, t, schema, o)
  {
  }

  lemma PlatformOwned(t: Table, k: PlatformMessage, direction: Direction, schema: Schema, o: Origin)
    requires o.Path? && TableOk(t) && EnsurePlatform(t, k, direction).Ok?
    ensures AddedOwned(t, EnsurePlatform(t, k, direction).value, schema, o)
  {
    hide OwnedBelow, EntryOk, EnsurePlatform, PlatformMessage.Name;
    PlatformKeeps(t, k, direction);
  }

  lemma ItemsOwned(t: Table, r: Table, list: Schema, o: Origin)
    requires o.Path? && list.List? && AddedOwned(t, r, list.item, o.Child("items"))
    ensures AddedOwned(t, r, list, o)
  {
    hide OwnedBelow;
    forall n | n in r.messages && n !in t.messages && n in r.origins && r.origins[n].Path? ensures OwnedBelow(r, n, list, o) {
      OwnedInItem(r, n, list, o);
    }
  }

  lemma ItemFits(t: Table, list: Schema, o: Origin, f: Field)
    requires o.Path? && list.List? && !list.item.List? && Fits(t, list.item, o.Child("items"), f)
    ensures Fits(t, list, o, f.(repeated := true))
  {
    assert !f.repeated;
    assert f.(repeated := true).(repeated := false) == f;
  }

  lemma {:induction false} AddNestedOwns(t: Table, nested: string, struct: Schema, direction: Direction, o: Origin)
    requires TableOk(t) && OwnName(nested) && o.Path? && o.direction == direction && Untouched(t, o) && struct.Struct?
    requires AddNested(t, nested, struct, direction, o).Ok?
    ensures var r := AddNested(t, nested, struct, direction, o).value;
      nested in r.origins && r.origins[nested] == o && AddedOwned(t, r, struct, o)
    decreases struct, 1, 0
  {
    hide SchemaAt, OwnedBelow;
    DeclareFresh(t, nested, struct, direction, o);
    var d := Declare(t, nested, direction, o).value;
    var names := Sorted(struct.properties.Keys);
    AddPropertiesOwns(d, nested, struct, names, direction, o);
    AddPropertiesKeeps(d, nested, struct, names, direction, o);
    var r := AddProperties(d, nested, struct, names, direction, o).value;
    NestedOwned(d, r, nested, struct, o);
  }

  lemma NestedOwned(d: Table, r: Table, nested: string, struct: Schema, o: Origin)
    requires o.Path? && struct.Struct? && nested in d.messages && d.messages[nested].fields == []
    requires nested in r.messages && nested in r.origins && r.origins[nested] == o
    requires r.messages[nested].direction == o.direction
    requires FieldsAdded(d, r, nested, Sorted(struct.properties.Keys))
    requires AddedFit(d, r, nested, struct, Sorted(struct.properties.Keys), o)
    ensures OwnedBelow(r, nested, struct, o)
  {
    hide Describes, FieldsAdded, AddedFit;
    NestedDescribed(d, r, nested, struct, o);
    assert o.segments[|o.segments|..] == [];
    assert SchemaAt(struct, []) == Some(struct);
  }

  lemma NestedDescribed(d: Table, r: Table, nested: string, struct: Schema, o: Origin)
    requires o.Path? && struct.Struct? && nested in d.messages && d.messages[nested].fields == []
    requires nested in r.messages && nested in r.origins && r.origins[nested] == o
    requires FieldsAdded(d, r, nested, Sorted(struct.properties.Keys))
    requires AddedFit(d, r, nested, struct, Sorted(struct.properties.Keys), o)
    ensures Describes(r, nested, struct) && |r.messages[nested].fields| == |Sorted(struct.properties.Keys)|
  {
    hide Fits, FieldsAdded, AddedFit, Before;
    NewFieldsFit(d, r, nested, struct, Sorted(struct.properties.Keys), o);
  }

  lemma NewFieldsFit(d: Table, r: Table, nested: string, struct: Schema, keys: seq<string>, o: Origin)
    requires o.Path? && struct.Struct? && nested in d.messages && d.messages[nested].fields == []
    requires nested in r.messages && FieldsAdded(d, r, nested, keys) && AddedFit(d, r, nested, struct, keys, o)
    ensures |r.messages[nested].fields| == |keys|
    ensures forall i | 0 <= i < |keys| ::
      && r.messages[nested].fields[i].name == keys[i]
      && keys[i] in struct.properties
      && Fits(r, struct.properties[keys[i]], o.Child(keys[i]), r.messages[nested].fields[i])
  {
    hide Fits;
    var fields := r.messages[nested].fields;
    assert fields[0..] == fields;
    forall i | 0 <= i < |keys|
      ensures fields[i].name == keys[i] && keys[i] in struct.properties
      ensures Fits(r, struct.properties[keys[i]], o.Child(keys[i]), fields[i])
    {
      assert fields[0 + i] == fields[i];
    }
  }

  /** The fields that the owner gained fit the named properties. */
  ghost predicate AddedFit(t: Table, r: Table, owner: string, struct: Schema, names: seq<string>, o: Origin)
    requires o.Path? && struct.Struct? && owner in t.messages && owner in r.messages
  {
    var k := |t.messages[owner].fields|;
    && k + |names| <= |r.messages[owner].fields|
    && forall i | 0 <= i < |names| ::
        names[i] in struct.properties
        && Fits(r, struct.properties[names[i]], o.Child(names[i]), r.messages[owner].fields[k + i])
  }

  lemma {:induction false} AddPropertiesOwns(t: Table, owner: string, struct: Schema, names: seq<string>, direction: Direction, o: Origin)
    requires TableOk(t) && owner in t.messages && t.origins[owner].Path?
    requires o.Path? && o.direction == direction && struct.Struct? && Distinct(names)
    requires forall n | n in names :: n in struct.properties && Untouched(t, o.Child(n))
    requires AddProperties(t, owner, struct, names, direction, o).Ok?
    ensures var r := AddProperties(t, owner, struct, names, direction, o).value;
      owner in r.messages && AddedFit(t, r, owner, struct, names, o) && AddedOwned(t, r, struct, o)
    decreases struct, 0, |names|
  {
    hide Fits, OwnedBelow, EntryOk;
    if names != [] {
      hide TableOk, Untouched, Preserves, NewWithin, AddedOwned, AddedFit, AddField, Append, Distinct, FieldsAdded;
      var n := names[0];
      PathIsOwn(t, owner);
      AddFieldKeeps(t, owner, n, struct.properties[n], direction, o.Child(n));
      AddFieldOwns(t, owner, n, struct.properties[n], direction, o.Child(n));
      var (d, f) := AddField(t, owner, n, struct.properties[n], direction, o.Child(n)).value;
      var a := Append(d, owner, [f]);
      PropertyAdded(t, d, a, owner, names, o, f);
      AddPropertiesOwns(a, owner, struct, names[1..], direction, o);
      AddPropertiesKeeps(a, owner, struct, names[1..], direction, o);
      var r := AddProperties(a, owner, struct, names[1..], direction, o).value;
      FieldsGrow(a, r, owner, names[1..]);
      PropertyJoin(t, d, a, r, owner, struct, names, o, f);
    }
  }

  lemma FieldsGrow(a: Table, r: Table, owner: string, names: seq<string>)
    requires owner in a.messages && FieldsAdded(a, r, owner, names)
    ensures owner in r.messages && a.messages[owner].fields <= r.messages[owner].fields
  {
  }

  lemma PropertyJoin(t: Table, d: Table, a: Table, r: Table, owner: string, struct: Schema, names: seq<string>, o: Origin, f: Field)
    requires o.Path? && struct.Struct? && names != [] && names[0] in struct.properties
    requires TableOk(t) && TableOk(d) && TableOk(a) && owner in t.messages && Preserves(t, d, {})
    requires a == Append(d, owner, [f]) && Preserves(a, r, {owner})
    requires Fits(d, struct.properties[names[0]], o.Child(names[0]), f)
    requires AddedOwned(t, d, struct.properties[names[0]], o.Child(names[0])) && AddedOwned(a, r, struct, o)
    requires owner in a.messages && owner in r.messages && a.messages[owner].fields <= r.messages[owner].fields
    requires AddedFit(a, r, owner, struct, names[1..], o)
    ensures AddedFit(t, r, owner, struct, names, o) && AddedOwned(t, r, struct, o)
  {
    hide Fits, OwnedBelow, EntryOk, AddedFit, AddedOwned, Preserves;
    JoinedFit(t, d, a, r, owner, struct, names, o, f);
    JoinedOwned(t, d, a, r, owner, struct, names[0], o, f);
  }

  lemma JoinedFit(t: Table, d: Table, a: Table, r: Table, owner: string, struct: Schema, names: seq<string>, o: Origin, f: Field)
    requires o.Path? && struct.Struct? && names != [] && names[0] in struct.properties
    requires TableOk(a) && owner in t.messages && Preserves(t, d, {})
    requires a == Append(d, owner, [f]) && Preserves(a, r, {owner})
    requires Fits(d, struct.properties[names[0]], o.Child(names[0]), f)
    requires owner in a.messages && owner in r.messages && a.messages[owner].fields <= r.messages[owner].fields
    requires AddedFit(a, r, owner, struct, names[1..], o)
    ensures AddedFit(t, r, owner, struct, names, o)
  {
    hide Fits, EntryOk;
    PreservesOrigins(a, r, {owner});
    var k := |t.messages[owner].fields|;
    assert a.messages[owner].fields == t.messages[owner].fields + [f];
    FitsKept(d, r, struct.properties[names[0]], o.Child(names[0]), f);
    assert r.messages[owner].fields[k] == f;
    forall i | 0 <= i < |names|
      ensures names[i] in struct.properties
      ensures k + i < |r.messages[owner].fields|
      ensures Fits(r, struct.properties[names[i]], o.Child(names[i]), r.messages[owner].fields[k + i])
    {
      if i > 0 { assert names[1..][i - 1] == names[i]; }
    }
  }

  lemma JoinedOwned(t: Table, d: Table, a: Table, r: Table, owner: string, struct: Schema, name: string, o: Origin, f: Field)
    requires o.Path? && struct.Struct? && name in struct.properties
    requires TableOk(t) && TableOk(d) && TableOk(a) && owner in t.messages && Preserves(t, d, {})
    requires a == Append(d, owner, [f]) && Preserves(a, r, {owner})
    requires AddedOwned(t, d, struct.properties[name], o.Child(name)) && AddedOwned(a, r, struct, o)
    ensures AddedOwned(t, r, struct, o)
  {
    hide OwnedBelow, EntryOk;
    PreservesOrigins(a, r, {owner});
    forall n | n in r.messages && n !in t.messages && n in r.origins && r.origins[n].Path? ensures OwnedBelow(r, n, struct, o) {
      if n in d.messages {
        OwnedKept(d, r, n, struct.properties[name], o.Child(name));
        OwnedDeeper(r, n, struct, o, name);
      }
    }
  }

  // ---------------------------------------------------------------- no two messages for one path

  ghost predicate OnePerPath(t: Table) {
    forall m, n | m in t.origins && n in t.origins && t.origins[m].Path? && t.origins[m] == t.origins[n] :: m == n
  }

  lemma {:induction false} AddFieldOnePerPath(t: Table, parent: string, name: string, schema: Schema, direction: Direction, o: Origin)
    requires TableOk(t) && OwnName(parent) && o.Path? && Untouched(t, o) && OnePerPath(t)
    requires AddField(t, parent, name, schema, direction, o).Ok?
    ensures OnePerPath(AddField(t, parent, name, schema, direction, o).value.0)
    decreases schema, 2, 0
  {
    match schema
    case Primitive(typeName) =>
    case Date => PlatformKeeps(t, DateValue, direction);
    case DatetimeTz => PlatformKeeps(t, DatetimeTzValue, direction);
    case Struct(closed, properties) =>
      var nested := parent + Pascal(name).value;
      assert OwnName(nested);
      AddNestedOnePerPath(t, nested, schema, direction, o);
    case List(item) =>
      ItemUntouched(t, o);
      AddFieldOnePerPath(t, parent, name, item, direction, o.Child("items"));
    case ListWithoutItems =>
  }

  lemma {:induction false} AddNestedOnePerPath(t: Table, nested: string, struct: Schema, direction: Direction, o: Origin)
    requires TableOk(t) && OwnName(nested) && o.Path? && Untouched(t, o) && struct.Struct? && OnePerPath(t)
    requires AddNested(t, nested, struct, direction, o).Ok?
    ensures OnePerPath(AddNested(t, nested, struct, direction, o).value)
    decreases struct, 1, 0
  {
    DeclareFresh(t, nested, struct, direction, o);
    var d := Declare(t, nested, direction, o).value;
    assert forall n | n in t.origins :: !o.Covers(t.origins[n]) && t.origins[n] != o;
    AddPropertiesOnePerPath(d, nested, struct, Sorted(struct.properties.Keys), direction, o);
  }

  lemma {:induction false} AddPropertiesOnePerPath(t: Table, owner: string, struct: Schema, names: seq<string>, direction: Direction, o: Origin)
    requires TableOk(t) && owner in t.messages && t.origins[owner].Path? && OnePerPath(t)
    requires o.Path? && struct.Struct? && Distinct(names)
    requires forall n | n in names :: n in struct.properties && Untouched(t, o.Child(n))
    requires AddProperties(t, owner, struct, names, direction, o).Ok?
    ensures OnePerPath(AddProperties(t, owner, struct, names, direction, o).value)
    decreases struct, 0, |names|
  {
    hide OnePerPath, Untouched, NewWithin, TableOk, Preserves, AddField, Distinct, EntryOk;
    if names != [] {
      var n := names[0];
      PathIsOwn(t, owner);
      AddFieldKeeps(t, owner, n, struct.properties[n], direction, o.Child(n));
      AddFieldOnePerPath(t, owner, n, struct.properties[n], direction, o.Child(n));
      var (d, f) := AddField(t, owner, n, struct.properties[n], direction, o.Child(n)).value;
      var a := Append(d, owner, [f]);
      PropertyAdded(t, d, a, owner, names, o, f);
      SamePaths(d, a);
      AddPropertiesOnePerPath(a, owner, struct, names[1..], direction, o);
    }
  }

  lemma SamePaths(d: Table, a: Table)
    requires OnePerPath(d) && a.origins == d.origins
    ensures OnePerPath(a)
  {
  }

  // ---------------------------------------------------------------- the whole interface

  /** The Struct that an endpoint publishes in a direction. */
  function InterfaceOf(e: Endpoint, direction: Direction): (s: Schema)
    ensures s.Struct?
  {
    if direction == Request then e.RequestSchema() else ResponseStruct(e)
  }

  /** Past its properties a message only has the execution metadata, and only as the root of a response. */
  ghost predicate ExecutionTail(fields: seq<Field>, k: nat, o: Origin)
    requires o.Path?
  {
    && k <= |fields|
    && (forall i | k <= i < |fields| :: fields[i].name == "execution" && fields[i].typeName == Execution.Name())
    && (k < |fields| ==> o.direction == Response && o.segments == [])
  }

  /** The message n stands for one Struct of the endpoint's interface. */
  ghost predicate StandsFor(t: Table, n: string, e: Endpoint)
    requires n in t.messages && n in t.origins && t.origins[n].Path?
  {
    var o := t.origins[n];
    && o.endpoint == e.id && t.messages[n].direction == o.direction
    && IsStructAt(InterfaceOf(e, o.direction), o.segments)
    && var struct := SchemaAt(InterfaceOf(e, o.direction), o.segments).value;
       && Describes(t, n, struct)
       && ExecutionTail(t.messages[n].fields, |Sorted(struct.properties.Keys)|, o)
  }

  /** Every message that is not the platform's stands for a Struct of one of the endpoints. */
  ghost predicate AllOwned(t: Table, endpoints: set<Endpoint>) {
    forall n | n in t.messages && n in t.origins && t.origins[n].Path? ::
      exists e | e in endpoints :: StandsFor(t, n, e)
  }

  ghost predicate HasMessageFor(t: Table, o: Origin) {
    exists n | n in t.origins :: t.origins[n] == o
  }

  /** The name of the message at the root of an endpoint's request or response. */
  function RootName(rpc: string, direction: Direction): string {
    rpc + if direction == Request then "Request" else "Response"
  }

  ghost predicate HasRoot(t: Table, e: Endpoint, direction: Direction) {
    && Pascal(e.id).Some?
    && var n := RootName(Pascal(e.id).value, direction);
       n in t.origins && t.origins[n] == Path(e.id, direction, [])
  }

  /** The roots of every endpoint are there, under the names derived from its method. */
  ghost predicate RootsOwned(t: Table, endpoints: set<Endpoint>) {
    forall e, direction | e in endpoints :: HasRoot(t, e, direction)
  }

  /** The message appended to is the root of a response. */
  ghost predicate IsResponseRoot(t: Table, n: string) {
    n in t.origins && t.origins[n].Path? && t.origins[n].direction == Response && t.origins[n].segments == []
  }

  lemma RootOwned(t: Table, n: string, e: Endpoint, direction: Direction)
    requires n in t.messages && n in t.origins && t.origins[n].Path?
    requires OwnedBelow(t, n, InterfaceOf(e, direction), Path(e.id, direction, []))
    ensures StandsFor(t, n, e)
  {
    assert t.origins[n].segments[0..] == t.origins[n].segments;
  }

  lemma StandsForKept(a: Table, b: Table, n: string, e: Endpoint)
    requires n in a.messages && n in a.origins && a.origins[n].Path? && StandsFor(a, n, e)
    requires n in b.messages && b.messages[n] == a.messages[n]
    requires forall m | m in a.origins :: m in b.origins && b.origins[m] == a.origins[m]
    ensures n in b.origins && StandsFor(b, n, e)
  {
    DescribesKept(a, b, n, SchemaAt(InterfaceOf(e, a.origins[n].direction), a.origins[n].segments).value);
  }

  /** Appending the execution metadata to the root of a response. */
  lemma StandsForInstrumented(a: Table, b: Table, n: string, e: Endpoint)
    requires n in a.messages && IsResponseRoot(a, n) && StandsFor(a, n, e)
    requires b == Append(a, n, [Plain("execution", Execution.Name())])
    ensures n in b.messages && n in b.origins && StandsFor(b, n, e)
  {
    DescribesKept(a, b, n, SchemaAt(InterfaceOf(e, a.origins[n].direction), a.origins[n].segments).value);
  }

  /** Tables that one endpoint adds messages to, before the metadata is appended. */
  lemma MessagesOwned(t: Table, rpc: string, e: Endpoint, ids: set<string>)
    requires SoundTable(t) && OwnedBy(t, ids) && e.id !in ids && OnePerPath(t)
    requires Pascal(e.id) == Some(rpc) && AddMessages(t, rpc, e).Ok?
    ensures var r := AddMessages(t, rpc, e).value;
      && Preserves(t, r, {}) && OnePerPath(r) && IsResponseRoot(r, ResponseName(rpc)) && RootsOwned(r, {e})
      && (forall n | n in r.messages && n !in t.messages && n in r.origins && r.origins[n].Path? :: StandsFor(r, n, e))
  {
    hide StandsFor, OwnedBelow, EntryOk, Closed, RootsOwned, IsResponseRoot, OnePerPath, AddedBelow, AddedOwned, NamesOf;
    DerivedNames(rpc, "");
    RequestStep(t, rpc, e, ids);
    var t1 := AddRequest(t, rpc, e).value;
    ResponseStep(t1, rpc, e, ids + {e.id});
    var t2 := AddResponse(t1, rpc, e).value;
    ExecutionStep(t2);
    var r := EnsureExecution(t2).value;
    AddNestedOwns(t, RequestName(rpc), e.RequestSchema(), Request, Path(e.id, Request, []));
    AddNestedOwns(t1, ResponseName(rpc), ResponseStruct(e), Response, Path(e.id, Response, []));
    AddNestedOnePerPath(t, RequestName(rpc), e.RequestSchema(), Request, Path(e.id, Request, []));
    AddNestedOnePerPath(t1, ResponseName(rpc), ResponseStruct(e), Response, Path(e.id, Response, []));
    StepsOwned(t, t1, t2, r, e, rpc);
  }

  lemma RootsAdded(t1: Table, t2: Table, r: Table, e: Endpoint, rpc: string)
    requires Pascal(e.id) == Some(rpc)
    requires RequestName(rpc) in t1.origins && t1.origins[RequestName(rpc)] == Path(e.id, Request, [])
    requires ResponseName(rpc) in t2.origins && t2.origins[ResponseName(rpc)] == Path(e.id, Response, [])
    requires forall n | n in t1.origins :: n in t2.origins && t2.origins[n] == t1.origins[n]
    requires forall n | n in t2.origins :: n in r.origins && r.origins[n] == t2.origins[n]
    ensures RootsOwned(r, {e}) && IsResponseRoot(r, ResponseName(rpc))
  {
    assert HasRoot(r, e, Request) && HasRoot(r, e, Response);
  }

  lemma PlatformOnePerPath(t: Table, r: Table)
    requires OnePerPath(t) && TableOk(t) && TableOk(r)
    requires forall n | n in t.origins :: n in r.origins && r.origins[n] == t.origins[n]
    requires forall n | n in r.messages && n !in t.messages :: r.origins[n].Platform?
    ensures OnePerPath(r)
  {
    hide EntryOk;
  }

  lemma StepsOwned(t: Table, t1: Table, t2: Table, r: Table, e: Endpoint, rpc: string)
    requires Pascal(e.id) == Some(rpc)
    requires RequestName(rpc) in t1.origins && t1.origins[RequestName(rpc)] == Path(e.id, Request, [])
    requires ResponseName(rpc) in t2.origins && t2.origins[ResponseName(rpc)] == Path(e.id, Response, [])
    requires TableOk(t) && TableOk(t1) && TableOk(t2) && Preserves(t, t1, {}) && Preserves(t1, t2, {}) && Preserves(t2, r, {})
    requires AddedOwned(t, t1, InterfaceOf(e, Request), Path(e.id, Request, []))
    requires AddedOwned(t1, t2, InterfaceOf(e, Response), Path(e.id, Response, []))
    requires TableOk(r) && forall n | n in r.messages && n !in t2.messages :: r.origins[n].Platform?
    requires OnePerPath(t2)
    ensures OnePerPath(r) && RootsOwned(r, {e}) && IsResponseRoot(r, ResponseName(rpc)) && Preserves(t, r, {})
    ensures forall n | n in r.messages && n !in t.messages && n in r.origins && r.origins[n].Path? :: StandsFor(r, n, e)
  {
    hide StandsFor, OwnedBelow, EntryOk, HasRoot, RootsOwned, OnePerPath, IsResponseRoot;
    PreservesOrigins(t1, t2, {});
    PreservesOrigins(t2, r, {});
    RootsAdded(t1, t2, r, e, rpc);
    PlatformOnePerPath(t2, r);
    forall n | n in r.messages && n !in t.messages && n in r.origins && r.origins[n].Path? ensures StandsFor(r, n, e) {
      if n in t1.messages {
        RootOwned(t1, n, e, Request);
        StandsForKept(t1, r, n, e);
      } else {
        RootOwned(t2, n, e, Response);
        StandsForKept(t2, r, n, e);
      }
    }
  }

  /** The invariant of the loop over endpoints. */
  ghost predicate LoopOwned(p: Progress, endpoints: set<Endpoint>) {
    && AllOwned(p.table, endpoints) && OnePerPath(p.table) && RootsOwned(p.table, endpoints)
    && (p.response.Some? ==> IsResponseRoot(p.table, p.response.value))
  }

  lemma EndpointOwned(p: Progress, e: Endpoint, ids: set<string>, done: set<Endpoint>)
    requires ProgressOk(p, ids) && e.id !in ids && AddEndpoint(p, e).Ok? && LoopOwned(p, done)
    ensures LoopOwned(AddEndpoint(p, e).value, done + {e})
  {
    hide StandsFor, Closed, Rooted, Instrumented, RootsOk, HasExecution, EntryOk;
    var rpc := Pascal(e.id).value;
    MessagesOwned(p.table, rpc, e, ids);
    var t := AddMessages(p.table, rpc, e).value;
    var response := ResponseLocal(p, rpc, e).value;
    PreservesOrigins(p.table, t, {});
    OwnedAppended(p.table, t, AddEndpoint(p, e).value.table, response, done, e);
  }

  lemma OwnedAppended(t: Table, r: Table, q: Table, response: string, done: set<Endpoint>, e: Endpoint)
    requires TableOk(t) && Preserves(t, r, {}) && AllOwned(t, done) && OnePerPath(r) && IsResponseRoot(r, response)
    requires forall n | n in r.messages && n !in t.messages && n in r.origins && r.origins[n].Path? :: StandsFor(r, n, e)
    requires q == Append(r, response, [Plain("execution", Execution.Name())])
    requires RootsOwned(t, done) && RootsOwned(r, {e})
    ensures AllOwned(q, done + {e}) && OnePerPath(q) && IsResponseRoot(q, response) && RootsOwned(q, done + {e})
  {
    hide StandsFor, EntryOk;
    PreservesOrigins(t, r, {});
    forall x, direction | x in done + {e} ensures HasRoot(q, x, direction) {
      if x in done {
        assert HasRoot(t, x, direction);
      } else {
        assert x in {e} && HasRoot(r, x, direction);
      }
    }
    forall n | n in q.messages && n in q.origins && q.origins[n].Path? ensures exists x | x in done + {e} :: StandsFor(q, n, x) {
      var x := e;
      if n in t.messages {
        x :| x in done && StandsFor(t, n, x);
        StandsForKept(t, r, n, x);
      }
      assert x in done + {e};
      if n == response {
        StandsForInstrumented(r, q, n, x);
      } else {
        StandsForKept(r, q, n, x);
      }
    }
  }

  lemma {:induction false} LoopOwns(p: Progress, endpoints: seq<Endpoint>, ids: set<string>, done: set<Endpoint>)
    requires ProgressOk(p, ids) && UniqueIds(endpoints) && Ids(endpoints) !! ids && AddEndpoints(p, endpoints).Ok?
    requires LoopOwned(p, done)
    ensures LoopOwned(AddEndpoints(p, endpoints).value, done + set e | e in endpoints)
    decreases |endpoints|
  {
    hide LoopOwned, ProgressOk, AddEndpoint;
    if endpoints == [] {
      assert done + (set e | e in endpoints) == done;
    } else {
      var e := endpoints[0];
      assert e.id in Ids(endpoints);
      EndpointStep(p, e, ids);
      EndpointOwned(p, e, ids, done);
      IdsSplit(endpoints);
      LoopOwns(AddEndpoint(p, e).value, endpoints[1..], ids + {e.id}, done + {e});
      ElementsSplit(endpoints);
      assert done + ({e} + set x | x in endpoints[1..]) == done + {e} + set x | x in endpoints[1..];
    }
  }

  lemma ElementsSplit(endpoints: seq<Endpoint>)
    requires endpoints != []
    ensures (set e | e in endpoints) == {endpoints[0]} + set e | e in endpoints[1..]
  {
    assert endpoints == [endpoints[0]] + endpoints[1..];
  }

  lemma {:induction false} SchemaAtJoin(schema: Schema, a: seq<string>, b: seq<string>)
    requires SchemaAt(schema, a).Some?
    ensures SchemaAt(schema, a + b) == SchemaAt(SchemaAt(schema, a).value, b)
    decreases |a|
  {
    if a == [] {
      assert a + b == b;
    } else {
      assert (a + b)[0] == a[0] && (a + b)[1..] == a[1..] + b;
      match schema
      case Struct(_, properties) => SchemaAtJoin(properties[a[0]], a[1..], b);
      case List(item) => SchemaAtJoin(item, a[1..], b);
      case _ =>
    }
  }

  /** The message that stands for a path describes the Struct at that path of that endpoint. */
  lemma StandsForThis(t: Table, n: string, e: Endpoint, endpoints: seq<Endpoint>)
    requires n in t.messages && n in t.origins && t.origins[n].Path? && t.origins[n].endpoint == e.id
    requires UniqueIds(endpoints) && e in endpoints && AllOwned(t, set x | x in endpoints)
    ensures StandsFor(t, n, e)
  {
    hide StandsFor;
    var x :| x in endpoints && StandsFor(t, n, x);
    assert x.id == e.id by { StandsForId(t, n, x); }
    var i :| 0 <= i < |endpoints| && endpoints[i] == x;
    var j :| 0 <= j < |endpoints| && endpoints[j] == e;
    assert i == j;
  }

  lemma StandsForId(t: Table, n: string, e: Endpoint)
    requires n in t.messages && n in t.origins && t.origins[n].Path? && StandsFor(t, n, e)
    ensures t.origins[n].endpoint == e.id
  {
  }

  /** From a field that fits a schema one gets to the message of every Struct inside it. */
  lemma {:induction false} FitsLeads(t: Table, e: Endpoint, endpoints: seq<Endpoint>, schema: Schema, o: Origin, f: Field, rest: seq<string>)
    requires t.messages.Keys == t.origins.Keys
    requires UniqueIds(endpoints) && e in endpoints && AllOwned(t, set x | x in endpoints)
    requires o.Path? && o.endpoint == e.id && SchemaAt(InterfaceOf(e, o.direction), o.segments) == Some(schema)
    requires Fits(t, schema, o, f) && IsStructAt(schema, rest)
    ensures HasMessageFor(t, Path(o.endpoint, o.direction, o.segments + rest))
    decreases |rest|, 1
  {
    hide AllOwned, InterfaceOf;
    if rest == [] {
      assert o.segments + rest == o.segments && t.origins[f.typeName] == o;
    } else {
      var k := rest[0];
      assert o.segments + rest == o.Child(k).segments + rest[1..];
      SchemaAtJoin(InterfaceOf(e, o.direction), o.segments, [k]);
      assert [k][1..] == [];
      match schema
      case Struct(_, properties) =>
        MessageLeads(t, e, endpoints, f.typeName, schema, k, rest[1..]);
      case List(item) =>
        FitsLeads(t, e, endpoints, item, o.Child("items"), f.(repeated := false), rest[1..]);
      case _ =>
    }
  }

  lemma {:induction false} MessageLeads(t: Table, e: Endpoint, endpoints: seq<Endpoint>, n: string, schema: Schema, k: string, rest: seq<string>)
    requires t.messages.Keys == t.origins.Keys
    requires UniqueIds(endpoints) && e in endpoints && AllOwned(t, set x | x in endpoints)
    requires n in t.origins && t.origins[n].Path? && t.origins[n].endpoint == e.id
    requires var o := t.origins[n];
      && SchemaAt(InterfaceOf(e, o.direction), o.segments) == Some(schema) && schema.Struct?
      && k in schema.properties && IsStructAt(schema.properties[k], rest)
      && SchemaAt(InterfaceOf(e, o.direction), o.Child(k).segments) == Some(schema.properties[k])
    ensures HasMessageFor(t, Path(e.id, t.origins[n].direction, t.origins[n].Child(k).segments + rest))
    decreases |rest| + 1, 0
  {
    hide AllOwned, InterfaceOf;
    StandsForThis(t, n, e, endpoints);
    var keys := Sorted(schema.properties.Keys);
    assert k in keys;
    var i :| 0 <= i < |keys| && keys[i] == k;
    FitsLeads(t, e, endpoints, schema.properties[k], t.origins[n].Child(k), t.messages[n].fields[i], rest);
  }

  /**
   Construction either fails or is a bijection between the Structs of the
   interface and the messages that are not the platform's.
   */
  lemma MessagesAreStructs(endpoints: seq<Endpoint>)
    requires UniqueIds(endpoints) && Build(endpoints).Ok?
    ensures var t := Build(endpoints).value.table;
      && AllOwned(t, set e | e in endpoints)
      && OnePerPath(t) && RootsOwned(t, set e | e in endpoints)
      && forall e, direction, segments | e in endpoints && IsStructAt(InterfaceOf(e, direction), segments) ::
           HasMessageFor(t, Path(e.id, direction, segments))
  {
    hide AllOwned, Rooted, Instrumented, RootsOk, HasExecution, OwnedBy, Closed, IsStructAt, AddEndpoints;
    StartOk();
    assert LoopOwned(START, {}) by { StartOwned(); }
    LoopOwns(START, endpoints, {}, {});
    BuildSound(endpoints);
    var t := Build(endpoints).value.table;
    assert {} + (set e | e in endpoints) == set e | e in endpoints;
    forall e, direction, segments | e in endpoints && IsStructAt(InterfaceOf(e, direction), segments)
      ensures HasMessageFor(t, Path(e.id, direction, segments))
    {
      StructHasMessage(t, e, endpoints, direction, segments);
    }
  }

  lemma StartOwned()
    ensures LoopOwned(START, {})
  {
  }

  lemma StructHasMessage(t: Table, e: Endpoint, endpoints: seq<Endpoint>, direction: Direction, segments: seq<string>)
    requires t.messages.Keys == t.origins.Keys && UniqueIds(endpoints) && e in endpoints
    requires AllOwned(t, set x | x in endpoints) && RootsOwned(t, set x | x in endpoints)
    requires IsStructAt(InterfaceOf(e, direction), segments)
    ensures HasMessageFor(t, Path(e.id, direction, segments))
  {
    hide AllOwned, InterfaceOf;
    assert e in set x | x in endpoints;
    assert HasRoot(t, e, direction);
    if segments != [] {
      var n :| n in t.origins && t.origins[n] == Path(e.id, direction, []);
      var k := segments[0];
      assert t.origins[n].Child(k).segments == [k] && [k] + segments[1..] == segments && [k][1..] == [];
      MessageLeads(t, e, endpoints, n, InterfaceOf(e, direction), k, segments[1..]);
    }
  }
}
