/** What the construction of the message table keeps. */
module MessageFacts {
  import opened Prelude
  import opened Names
  import opened Graphs
  import opened Numbering
  import opened Messages

  predicate EnumName(name: string) {
    name == STATUS_ENUM || name == STREAM_ENUM
  }

  /** The shape of every name derived from an endpoint. */
  predicate OwnName(name: string) {
    name != "" && IsUpper(name[0]) && 'R' in name
  }

  lemma OwnNamesAreOwn(name: string)
    requires OwnName(name)
    ensures !EnumName(name) && forall k: PlatformMessage :: k.Name() != name
  {
  }

  lemma DerivedNames(rpc: string, suffix: string)
    requires rpc != "" && IsUpper(rpc[0])
    ensures OwnName(RequestName(rpc)) && OwnName(ResponseName(rpc))
    ensures OwnName(RequestName(rpc) + suffix) && OwnName(ResponseName(rpc) + suffix)
  {
    assert RequestName(rpc)[|rpc|] == 'R' && (RequestName(rpc) + suffix)[|rpc|] == 'R';
    assert ResponseName(rpc)[|rpc|] == 'R' && (ResponseName(rpc) + suffix)[|rpc|] == 'R';
  }

  ghost predicate EntryOk(name: string, origin: Origin, shape: Shape) {
    && Unnumbered(shape.fields)
    && match origin
       case Platform(k) => name == k.Name() && shape.fields == k.Fields()
       case Path(_, _, _) => OwnName(name)
  }

  ghost predicate TableOk(t: Table) {
    && t.messages.Keys == t.origins.Keys
    && forall n | n in t.messages :: EntryOk(n, t.origins[n], t.messages[n])
  }

  /** All entries of a survive in b, unchanged except for those in `grown`. */
  ghost predicate Preserves(a: Table, b: Table, grown: set<string>) {
    forall n | n in a.messages ::
      && n in b.messages && n in a.origins && n in b.origins && b.origins[n] == a.origins[n]
      && (n !in grown ==> b.messages[n] == a.messages[n])
  }

  ghost predicate NewWithin(a: Table, b: Table, o: Origin) {
    forall n | n in b.origins && n !in a.origins :: b.origins[n].Platform? || o.Covers(b.origins[n])
  }

  /** No message stands for the path or for anything below it. */
  ghost predicate Untouched(t: Table, o: Origin) {
    forall n | n in t.origins :: !o.Covers(t.origins[n])
  }

  lemma PlatformFieldsFresh(k: PlatformMessage)
    ensures Unnumbered(k.Fields()) && k.Fields() != []
  {
  }

  lemma PlatformPresent(t: Table, k: PlatformMessage, direction: Direction)
    requires TableOk(t) && k.Name() in t.origins && EnsurePlatform(t, k, direction).Ok?
    ensures EnsurePlatform(t, k, direction).value == t && t.origins[k.Name()] == Platform(k)
  {
    hide PlatformMessage.Fields;
    PlatformFieldsFresh(k);
    assert EntryOk(k.Name(), t.origins[k.Name()], t.messages[k.Name()]);
  }

  lemma PlatformNew(t: Table, k: PlatformMessage, direction: Direction)
    requires TableOk(t) && k.Name() !in t.origins && EnsurePlatform(t, k, direction).Ok?
    ensures EnsurePlatform(t, k, direction).value
      == Table(t.messages[k.Name() := Shape(direction, k.Fields(), {}, {})], t.origins[k.Name() := Platform(k)])
  {
    hide PlatformMessage.Fields, PlatformMessage.Name, EntryOk;
    assert [] + k.Fields() == k.Fields();
  }

  lemma PlatformKeeps(t: Table, k: PlatformMessage, direction: Direction)
    requires TableOk(t) && EnsurePlatform(t, k, direction).Ok?
    ensures var r := EnsurePlatform(t, k, direction).value;
      && TableOk(r) && Preserves(t, r, {})
      && k.Name() in r.messages && r.origins[k.Name()] == Platform(k)
      && (forall n | n in r.messages && n !in t.messages :: n == k.Name())
  {
    hide PlatformMessage.Fields, EnsurePlatform;
    PlatformFieldsFresh(k);
    if k.Name() in t.origins { PlatformPresent(t, k, direction); } else { PlatformNew(t, k, direction); }
  }

  lemma ChildrenApart(o: Origin, a: string, b: string, inner: Origin)
    requires o.Path? && a != b && o.Child(a).Covers(inner)
    ensures !o.Child(b).Covers(inner)
    ensures o.Covers(inner)
  {
    assert inner.segments[|o.segments|] == a;
  }

  lemma {:induction false} AddFieldKeeps(t: Table, parent: string, name: string, schema: Schema, direction: Direction, o: Origin)
    requires TableOk(t) && OwnName(parent) && o.Path? && Untouched(t, o)
    requires AddField(t, parent, name, schema, direction, o).Ok?
    ensures var (r, f) := AddField(t, parent, name, schema, direction, o).value;
      && TableOk(r) && Preserves(t, r, {}) && NewWithin(t, r, o) && f.name == name && f.number == 0
    decreases schema, 2, 0
  {
    match schema
    case Primitive(typeName) =>
    case Date => PlatformKeeps(t, DateValue, direction);
    case DatetimeTz => PlatformKeeps(t, DatetimeTzValue, direction);
    case Struct(closed, properties) =>
      var nested := parent + Pascal(name).value;
      assert OwnName(nested);
      AddNestedKeeps(t, nested, schema, direction, o);
    case List(item) =>
      ItemUntouched(t, o);
      AddFieldKeeps(t, parent, name, item, direction, o.Child("items"));
    case ListWithoutItems =>
  }

  lemma {:induction false} AddNestedKeeps(t: Table, nested: string, struct: Schema, direction: Direction, o: Origin)
    requires TableOk(t) && OwnName(nested) && o.Path? && Untouched(t, o) && struct.Struct?
    requires AddNested(t, nested, struct, direction, o).Ok?
    ensures nested !in t.messages
    ensures var r := AddNested(t, nested, struct, direction, o).value;
      && TableOk(r) && Preserves(t, r, {}) && NewWithin(t, r, o)
      && nested in r.messages && r.origins[nested] == o && r.messages[nested].direction == direction
      && NamesOf(r.messages[nested].fields) == Sorted(struct.properties.Keys)
    decreases struct, 1, 0
  {
    hide EntryOk, Untouched, Preserves, Declare, AddProperties, FieldsAdded, Origin.Covers, OwnName;
    DeclareFresh(t, nested, struct, direction, o);
    var d := Declare(t, nested, direction, o).value;
    FreshDeclaration(t, d, nested, direction, o);
    AddPropertiesKeeps(d, nested, struct, Sorted(struct.properties.Keys), direction, o);
    var r := AddNested(t, nested, struct, direction, o).value;
    assert r == AddProperties(d, nested, struct, Sorted(struct.properties.Keys), direction, o).value;
    AddedToEmpty(d, r, nested, Sorted(struct.properties.Keys));
    FilledDeclaration(t, d, r, nested, o);
  }

  /** A declaration of a new name, and what is filled into it later. */
  lemma FreshDeclaration(t: Table, d: Table, nested: string, direction: Direction, o: Origin)
    requires nested !in t.messages && TableOk(t)
    requires d.messages == t.messages[nested := Shape(direction, [], {}, {})] && d.origins == t.origins[nested := o]
    ensures Preserves(t, d, {})
  {
    hide EntryOk;
  }

  lemma FilledDeclaration(t: Table, d: Table, r: Table, nested: string, o: Origin)
    requires nested !in t.messages && TableOk(t) && TableOk(d) && o.Path?
    requires Preserves(t, d, {}) && d.origins == t.origins[nested := o] && Preserves(d, r, {nested}) && NewWithin(d, r, o)
    requires TableOk(r) && nested in d.messages
    ensures Preserves(t, r, {}) && NewWithin(t, r, o) && nested in r.messages && r.origins[nested] == o
  {
    hide EntryOk;
  }

  lemma DeclareFresh(t: Table, nested: string, struct: Schema, direction: Direction, o: Origin)
    requires TableOk(t) && OwnName(nested) && o.Path? && Untouched(t, o) && struct.Struct?
    requires Declare(t, nested, direction, o).Ok?
    ensures nested !in t.messages
    ensures var d := Declare(t, nested, direction, o).value;
      && TableOk(d)
      && d.messages == t.messages[nested := Shape(direction, [], {}, {})] && d.origins == t.origins[nested := o]
      && forall n | n in struct.properties :: Untouched(d, o.Child(n))
  {
    var d := Declare(t, nested, direction, o).value;
    forall n | n in struct.properties ensures Untouched(d, o.Child(n)) {
      ChildUntouched(t, d, o, nested, n);
    }
  }

  lemma AddedToEmpty(d: Table, r: Table, owner: string, names: seq<string>)
    requires owner in d.messages && d.messages[owner].fields == [] && FieldsAdded(d, r, owner, names)
    ensures owner in r.messages && r.messages[owner].direction == d.messages[owner].direction
    ensures NamesOf(r.messages[owner].fields) == names
  {
    assert r.messages[owner].fields[0..] == r.messages[owner].fields;
  }

  function NamesOf(fields: seq<Field>): seq<string> {
    seq(|fields|, i requires 0 <= i < |fields| => fields[i].name)
  }

  lemma ItemUntouched(t: Table, o: Origin)
    requires o.Path? && Untouched(t, o)
    ensures Untouched(t, o.Child("items"))
  {
    forall n | n in t.origins ensures !o.Child("items").Covers(t.origins[n]) {
      assert o.segments <= o.Child("items").segments;
    }
  }

  lemma ChildUntouched(t: Table, d: Table, o: Origin, nested: string, n: string)
    requires o.Path? && Untouched(t, o) && d.origins == t.origins[nested := o]
    ensures Untouched(d, o.Child(n))
  {
    forall m | m in d.origins ensures !o.Child(n).Covers(d.origins[m]) {
      assert o.segments <= o.Child(n).segments;
      if m == nested { assert |o.Child(n).segments| > |o.segments|; }
    }
  }

  lemma {:induction false} AddPropertiesKeeps(t: Table, owner: string, struct: Schema, names: seq<string>, direction: Direction, o: Origin)
    requires TableOk(t) && owner in t.messages && t.origins[owner].Path?
    requires o.Path? && struct.Struct? && Distinct(names)
    requires forall n | n in names :: n in struct.properties && Untouched(t, o.Child(n))
    requires AddProperties(t, owner, struct, names, direction, o).Ok?
    ensures var r := AddProperties(t, owner, struct, names, direction, o).value;
      TableOk(r) && Preserves(t, r, {owner}) && NewWithin(t, r, o) && FieldsAdded(t, r, owner, names)
    decreases struct, 0, |names|
  {
    if names == [] {
      assert t.messages[owner].fields == t.messages[owner].fields + [];
    } else {
      hide EntryOk, Untouched, Preserves, NewWithin, FieldsAdded, TableOk, AddField, Append, Distinct, Origin.Covers;
      var n := names[0];
      PathIsOwn(t, owner);
      AddFieldKeeps(t, owner, n, struct.properties[n], direction, o.Child(n));
      var (d, f) := AddField(t, owner, n, struct.properties[n], direction, o.Child(n)).value;
      var a := Append(d, owner, [f]);
      PropertyAdded(t, d, a, owner, names, o, f);
      AddPropertiesKeeps(a, owner, struct, names[1..], direction, o);
      var r := AddProperties(a, owner, struct, names[1..], direction, o).value;
      PropertiesAdded(t, a, r, owner, names, o, f);
    }
  }

  lemma PathIsOwn(t: Table, n: string)
    requires TableOk(t) && n in t.messages && t.origins[n].Path?
    ensures OwnName(n)
  {
    assert EntryOk(n, t.origins[n], t.messages[n]);
  }

  /** The table after one property: one more field in the owner, and messages below the property. */
  lemma PropertyAdded(t: Table, d: Table, a: Table, owner: string, names: seq<string>, o: Origin, f: Field)
    requires TableOk(t) && TableOk(d) && Preserves(t, d, {}) && owner in t.messages && t.origins[owner].Path?
    requires o.Path? && names != [] && Distinct(names) && NewWithin(t, d, o.Child(names[0])) && f.number == 0
    requires a == Append(d, owner, [f]) && forall n | n in names :: Untouched(t, o.Child(n))
    ensures TableOk(a) && Preserves(t, a, {owner}) && owner in a.messages && a.origins[owner].Path?
    ensures a.messages[owner] == t.messages[owner].(fields := t.messages[owner].fields + [f])
    ensures NewWithin(t, a, o.Child(names[0]))
    ensures Distinct(names[1..]) && forall m | m in names[1..] :: Untouched(a, o.Child(m))
  {
    AppendKeeps(t, d, a, owner, f);
    hide EntryOk, Origin.Covers, Untouched;
    RestUntouched(t, a, o, names);
  }

  lemma AppendKeeps(t: Table, d: Table, a: Table, owner: string, f: Field)
    requires TableOk(t) && TableOk(d) && Preserves(t, d, {}) && owner in t.messages && f.number == 0 && t.origins[owner].Path?
    requires a == Append(d, owner, [f])
    ensures TableOk(a) && Preserves(t, a, {owner}) && a.origins == d.origins && owner in a.messages
    ensures a.messages[owner] == t.messages[owner].(fields := t.messages[owner].fields + [f])
  {
    assert EntryOk(owner, d.origins[owner], d.messages[owner]);
  }

  /** The table after all properties. */
  lemma PropertiesAdded(t: Table, a: Table, r: Table, owner: string, names: seq<string>, o: Origin, f: Field)
    requires TableOk(t) && TableOk(a) && TableOk(r) && Preserves(t, a, {owner}) && Preserves(a, r, {owner})
    requires o.Path? && names != [] && owner in t.messages && owner in a.messages && f.name == names[0]
    requires a.messages[owner] == t.messages[owner].(fields := t.messages[owner].fields + [f])
    requires NewWithin(t, a, o.Child(names[0])) && NewWithin(a, r, o) && FieldsAdded(a, r, owner, names[1..])
    ensures Preserves(t, r, {owner}) && NewWithin(t, r, o) && FieldsAdded(t, r, owner, names)
  {
    hide EntryOk, Origin.Covers;
    NewWithinBoth(t, a, r, o, names[0]);
    FieldsAddedStep(t, a, r, owner, names, f);
    hide FieldsAdded, NewWithin;
  }

  /** The owner gained exactly the named fields, in that order. */
  ghost predicate FieldsAdded(t: Table, r: Table, owner: string, names: seq<string>)
    requires owner in t.messages
  {
    && owner in r.messages
    && r.messages[owner].direction == t.messages[owner].direction
    && t.messages[owner].fields <= r.messages[owner].fields
    && (var added := r.messages[owner].fields[|t.messages[owner].fields|..];
       |added| == |names| && forall i | 0 <= i < |names| :: added[i].name == names[i])
  }

  lemma FieldsAddedStep(t: Table, a: Table, r: Table, owner: string, names: seq<string>, f: Field)
    requires names != [] && owner in t.messages && owner in a.messages && f.name == names[0]
    requires a.messages[owner] == t.messages[owner].(fields := t.messages[owner].fields + [f])
    requires FieldsAdded(a, r, owner, names[1..])
    ensures FieldsAdded(t, r, owner, names)
  {
    var k := |t.messages[owner].fields|;
    assert r.messages[owner].fields[k..] == [f] + r.messages[owner].fields[k+1..] by {
      assert r.messages[owner].fields[k] == a.messages[owner].fields[k];
    }
  }

  lemma SiblingUntouched(t: Table, a: Table, o: Origin, n: string, m: string)
    requires o.Path? && n != m && Untouched(t, o.Child(m)) && NewWithin(t, a, o.Child(n))
    requires forall x | x in t.origins :: x in a.origins && a.origins[x] == t.origins[x]
    ensures Untouched(a, o.Child(m))
  {
    forall x | x in a.origins ensures !o.Child(m).Covers(a.origins[x]) {
      if x !in t.origins && a.origins[x].Path? {
        ChildrenApart(o, n, m, a.origins[x]);
      }
    }
  }

  lemma NewWithinBoth(t: Table, d: Table, r: Table, o: Origin, n: string)
    requires o.Path? && NewWithin(t, d, o.Child(n)) && NewWithin(d, r, o)
    requires forall x | x in d.origins :: x in r.origins && r.origins[x] == d.origins[x]
    ensures NewWithin(t, r, o)
  {
    forall x | x in r.origins && x !in t.origins ensures r.origins[x].Platform? || o.Covers(r.origins[x]) {
      if x in d.origins && d.origins[x].Path? {
        assert o.segments <= o.Child(n).segments;
      }
    }
  }

  // ---------------------------------------------------------------- types resolve, new messages are reachable

  ghost function TypesOf(fields: seq<Field>): set<string> {
    set f | f in fields :: f.typeName
  }

  /** Which message types each message mentions. */
  ghost function Mentions(t: Table): Graph {
    map n | n in t.messages :: TypesOf(t.messages[n].fields)
  }

  predicate ScalarName(name: string) {
    name != "" && IsLower(name[0])
  }

  /** A scalar, one of the two platform enums, or a declared message. */
  predicate Resolves(messages: set<string>, typeName: string) {
    ScalarName(typeName) || EnumName(typeName) || typeName in messages
  }

  ghost predicate Closed(t: Table) {
    forall n, f | n in t.messages && f in t.messages[n].fields :: Resolves(t.messages.Keys, f.typeName)
  }

  /** Messages added between t and r are sound and reachable from `root`. */
  ghost predicate AddedBelow(t: Table, r: Table, root: string, direction: Direction) {
    forall n | n in r.messages && n !in t.messages ::
      && DistinctNames(r.messages[n].fields)
      && Reaches(Mentions(r), root, n)
      && r.messages[n].direction == direction
  }

  /** The fields of every message of a only grow. */
  ghost predicate Grows(a: Table, b: Table) {
    forall n | n in a.messages ::
      n in b.messages && a.messages[n].direction == b.messages[n].direction
      && a.messages[n].fields <= b.messages[n].fields
  }

  lemma GrowsMentions(a: Table, b: Table)
    requires Grows(a, b)
    ensures Subgraph(Mentions(a), Mentions(b))
  {
    forall n | n in a.messages ensures TypesOf(a.messages[n].fields) <= TypesOf(b.messages[n].fields) {
      forall f | f in a.messages[n].fields ensures f in b.messages[n].fields {
        var i :| 0 <= i < |a.messages[n].fields| && a.messages[n].fields[i] == f;
        assert b.messages[n].fields[i] == f;
      }
    }
  }

  lemma PlatformTypesResolve(k: PlatformMessage, messages: set<string>)
    requires k == Execution ==> ExecutionLog.Name() in messages
    ensures forall f | f in k.Fields() :: Resolves(messages, f.typeName)
  {
  }

  lemma PlatformNamesDistinct(k: PlatformMessage)
    ensures DistinctNames(k.Fields())
  {
    match k
    case Execution =>
      var f := Execution.Fields();
      assert |f[0].name| == 10 && |f[1].name| == 7 && |f[2].name| == 8 && |f[3].name| == 8;
      assert |f[4].name| == 6 && |f[5].name| == 5 && |f[6].name| == 4 && |f[7].name| == 9 && |f[8].name| == 14;
      assert f[2].name[0] == 'r' && f[3].name[0] == 'e';
    case ExecutionLog =>
      var f := ExecutionLog.Fields();
      assert |f[0].name| == 8 && |f[1].name| == 6 && |f[2].name| == 7 && |f[3].name| == 10;
    case DateValue =>
    case DatetimeTzValue =>
  }

  lemma PlatformAdds(t: Table, k: PlatformMessage, direction: Direction)
    requires TableOk(t) && Closed(t) && EnsurePlatform(t, k, direction).Ok?
    requires k == Execution ==> ExecutionLog.Name() in t.messages
    ensures var r := EnsurePlatform(t, k, direction).value;
      Closed(r) && AddedBelow(t, r, k.Name(), direction) && Grows(t, r)
  {
    hide PlatformMessage.Fields, PlatformMessage.Name, EnsurePlatform, EntryOk;
    var r := EnsurePlatform(t, k, direction).value;
    if k.Name() in t.origins { PlatformPresent(t, k, direction); } else { PlatformNew(t, k, direction); }
    PlatformTypesResolve(k, r.messages.Keys);
    PlatformNamesDistinct(k);
    ReachesSelf(Mentions(r), k.Name());
  }

  lemma {:induction false} AddFieldAdds(t: Table, parent: string, name: string, schema: Schema, direction: Direction, o: Origin)
    requires TableOk(t) && OwnName(parent) && o.Path? && Untouched(t, o) && Closed(t)
    requires AddField(t, parent, name, schema, direction, o).Ok?
    ensures var (r, f) := AddField(t, parent, name, schema, direction, o).value;
      Closed(r) && Resolves(r.messages.Keys, f.typeName) && AddedBelow(t, r, f.typeName, direction)
    decreases schema, 2, 0
  {
    match schema
    case Primitive(typeName) =>
    case Date => PlatformAdds(t, DateValue, direction); PlatformKeeps(t, DateValue, direction);
    case DatetimeTz => PlatformAdds(t, DatetimeTzValue, direction); PlatformKeeps(t, DatetimeTzValue, direction);
    case Struct(closed, properties) =>
      var nested := parent + Pascal(name).value;
      assert OwnName(nested);
      AddNestedAdds(t, nested, schema, direction, o);
      AddNestedKeeps(t, nested, schema, direction, o);
    case List(item) =>
      ItemUntouched(t, o);
      AddFieldAdds(t, parent, name, item, direction, o.Child("items"));
    case ListWithoutItems =>
  }

  lemma {:induction false} AddNestedAdds(t: Table, nested: string, struct: Schema, direction: Direction, o: Origin)
    requires TableOk(t) && OwnName(nested) && o.Path? && Untouched(t, o) && struct.Struct? && Closed(t)
    requires AddNested(t, nested, struct, direction, o).Ok?
    ensures var r := AddNested(t, nested, struct, direction, o).value;
      Closed(r) && AddedBelow(t, r, nested, direction)
    decreases struct, 1, 0
  {
    DeclareFresh(t, nested, struct, direction, o);
    var d := Declare(t, nested, direction, o).value;
    assert Closed(d);
    AddPropertiesAdds(d, nested, struct, Sorted(struct.properties.Keys), direction, o);
    AddNestedKeeps(t, nested, struct, direction, o);
    var r := AddNested(t, nested, struct, direction, o).value;
    ReachesSelf(Mentions(r), nested);
    NamesDistinct(r.messages[nested].fields);
  }

  lemma NamesDistinct(fields: seq<Field>)
    requires Distinct(NamesOf(fields))
    ensures DistinctNames(fields)
  {
    forall i, j | 0 <= i < j < |fields| ensures fields[i].name != fields[j].name {
      assert NamesOf(fields)[i] != NamesOf(fields)[j];
    }
  }

  lemma {:induction false} AddPropertiesAdds(t: Table, owner: string, struct: Schema, names: seq<string>, direction: Direction, o: Origin)
    requires TableOk(t) && owner in t.messages && t.origins[owner].Path? && Closed(t)
    requires o.Path? && struct.Struct? && Distinct(names)
    requires forall n | n in names :: n in struct.properties && Untouched(t, o.Child(n))
    requires AddProperties(t, owner, struct, names, direction, o).Ok?
    ensures var r := AddProperties(t, owner, struct, names, direction, o).value;
      Closed(r) && AddedBelow(t, r, owner, direction)
    decreases struct, 0, |names|
  {
    if names != [] {
      var n := names[0];
      AddFieldKeeps(t, owner, n, struct.properties[n], direction, o.Child(n));
      AddFieldAdds(t, owner, n, struct.properties[n], direction, o.Child(n));
      var (d, f) := AddField(t, owner, n, struct.properties[n], direction, o.Child(n)).value;
      var a := Append(d, owner, [f]);
      AppendedOk(d, a, owner, f);
      RestUntouched(t, a, o, names);
      AddPropertiesAdds(a, owner, struct, names[1..], direction, o);
      AddPropertiesKeeps(a, owner, struct, names[1..], direction, o);
      AddedJoin(t, d, a, AddProperties(a, owner, struct, names[1..], direction, o).value, owner, f, names[1..], direction);
    }
  }

  lemma RestUntouched(t: Table, a: Table, o: Origin, names: seq<string>)
    requires o.Path? && names != [] && Distinct(names) && NewWithin(t, a, o.Child(names[0]))
    requires forall n | n in names :: Untouched(t, o.Child(n))
    requires forall x | x in t.origins :: x in a.origins && a.origins[x] == t.origins[x]
    ensures Distinct(names[1..]) && forall m | m in names[1..] :: Untouched(a, o.Child(m))
  {
    forall m | m in names[1..] ensures Untouched(a, o.Child(m)) {
      SiblingUntouched(t, a, o, names[0], m);
    }
  }

  lemma AppendedOk(d: Table, a: Table, owner: string, f: Field)
    requires TableOk(d) && Closed(d) && owner in d.messages && d.origins[owner].Path?
    requires a == Append(d, owner, [f]) && Resolves(d.messages.Keys, f.typeName) && f.number == 0
    ensures TableOk(a) && Closed(a) && Grows(d, a) && f.typeName in Mentions(a)[owner]
  {
    assert a.messages.Keys == d.messages.Keys;
    assert f in a.messages[owner].fields by {
      assert a.messages[owner].fields[|d.messages[owner].fields|] == f;
    }
  }

  /** Messages added for one property and for the later ones are all below the owner. */
  lemma AddedJoin(t: Table, d: Table, a: Table, r: Table, owner: string, f: Field, names: seq<string>, direction: Direction)
    requires owner in t.messages && owner in a.messages && Preserves(t, d, {})
    requires a == Append(d, owner, [f]) && f.typeName in Mentions(a)[owner]
    requires AddedBelow(t, d, f.typeName, direction) && AddedBelow(a, r, owner, direction)
    requires FieldsAdded(a, r, owner, names) && Preserves(a, r, {owner}) && Grows(d, a)
    ensures AddedBelow(t, r, owner, direction)
  {
    assert Grows(a, r);
    forall n | n in r.messages && n !in t.messages
      ensures DistinctNames(r.messages[n].fields) && Reaches(Mentions(r), owner, n) && r.messages[n].direction == direction
    {
      if n in d.messages {
        ReachesThrough(d, a, r, owner, f.typeName, n);
        assert n != owner && r.messages[n] == d.messages[n];
      }
    }
  }

  lemma ReachesThrough(d: Table, a: Table, r: Table, owner: string, typeName: string, n: string)
    requires Grows(d, a) && Grows(a, r)
    requires owner in a.messages && typeName in Mentions(a)[owner] && Reaches(Mentions(d), typeName, n)
    ensures Reaches(Mentions(r), owner, n)
  {
    GrowsMentions(d, a);
    GrowsMentions(a, r);
    ReachesMonotone(Mentions(d), Mentions(a), typeName, n);
    ReachesBefore(Mentions(a), owner, typeName, n);
    ReachesMonotone(Mentions(a), Mentions(r), owner, n);
  }
}
