/**
 Assignment of protobuf field numbers to one message, given the message of the
 same name in the previously published descriptor.
 */
module Numbering {
  import opened Prelude
  import opened Names

  const MAX_FIELD_NUMBER: nat := 536_870_911
  const FIRST_IMPLEMENTATION_NUMBER: nat := 19000
  const LAST_IMPLEMENTATION_NUMBER: nat := 19999
  // how many numbers a message has
  const CAPACITY: nat := MAX_FIELD_NUMBER - (LAST_IMPLEMENTATION_NUMBER + 1 - FIRST_IMPLEMENTATION_NUMBER)

  datatype Direction = Request | Response

  type Signature = (string, bool)

  /** A field of a message under construction; number 0 means "not numbered yet". */
  datatype Field = Field(name: string, typeName: string, repeated: bool, number: nat) {
    function Sig(): Signature { (typeName, repeated) }
  }

  datatype PreviousField = PreviousField(number: nat, sig: Signature)

  /** A message as read back from a compiled descriptor. */
  datatype PreviousMessage = PreviousMessage(
    fields: map<string, PreviousField>,
    reservedNumbers: set<nat>,
    reservedNames: set<string>)

  datatype Shape = Shape(
    direction: Direction,
    fields: seq<Field>,
    reservedNumbers: set<nat>,
    reservedNames: set<string>)

  const NO_MESSAGE := PreviousMessage(map[], {}, {})

  function OrEmpty(previous: Option<PreviousMessage>): PreviousMessage {
    match previous case None => NO_MESSAGE case Some(m) => m
  }

  // ---------------------------------------------------------------- protobuf rules

  /** "Assigning Field Numbers" in the proto3 language guide. */
  predicate LegalNumber(n: nat) {
    1 <= n <= MAX_FIELD_NUMBER && !(FIRST_IMPLEMENTATION_NUMBER <= n <= LAST_IMPLEMENTATION_NUMBER)
  }

  /** The numbers that the message binds. */
  function Used(m: PreviousMessage): set<nat> {
    set name | name in m.fields :: m.fields[name].number
  }

  /** Every number that the message binds or has retired. */
  ghost function Taken(m: PreviousMessage): set<nat> {
    Used(m) + m.reservedNumbers
  }

  ghost predicate DistinctNumbers(m: PreviousMessage) {
    forall a, b | a in m.fields && b in m.fields && m.fields[a].number == m.fields[b].number :: a == b
  }

  /** The language guide's rules on the numbers and names of one message. */
  ghost predicate WellNumbered(m: PreviousMessage) {
    && DistinctNumbers(m)
    && (forall name | name in m.fields :: LegalNumber(m.fields[name].number))
    && Used(m) !! m.reservedNumbers
    && m.fields.Keys !! m.reservedNames
  }

  predicate DistinctNames(fields: seq<Field>) {
    forall i, j | 0 <= i < j < |fields| :: fields[i].name != fields[j].name
  }

  function FieldNames(fields: seq<Field>): set<string> {
    set f | f in fields :: f.name
  }

  // ---------------------------------------------------------------- specification

  predicate Carries(f: Field, previous: PreviousMessage) {
    f.name in previous.fields && previous.fields[f.name].sig == f.Sig()
  }

  predicate Retyped(f: Field, previous: PreviousMessage) {
    f.name in previous.fields && previous.fields[f.name].sig != f.Sig()
  }

  function Carried(f: Field, previous: PreviousMessage): Field {
    if Carries(f, previous) then f.(number := previous.fields[f.name].number) else f
  }

  function CarriedAll(fields: seq<Field>, previous: PreviousMessage): (r: seq<Field>)
    ensures |r| == |fields| && forall i | 0 <= i < |fields| :: r[i] == Carried(fields[i], previous)
  {
    seq(|fields|, i requires 0 <= i < |fields| => Carried(fields[i], previous))
  }

  function RetypedNumbers(fields: seq<Field>, previous: PreviousMessage): set<nat> {
    set f | f in fields && Retyped(f, previous) :: previous.fields[f.name].number
  }

  lemma NoneRetyped(previous: PreviousMessage)
    ensures RetypedNumbers([], previous) == {}
  {
  }

  lemma RetypedStep(fields: seq<Field>, i: nat, previous: PreviousMessage)
    requires i < |fields|
    ensures var f := fields[i];
      && (Retyped(f, previous) <==> f.name in previous.fields && previous.fields[f.name].sig != f.Sig())
      && RetypedNumbers(fields[..i + 1], previous) == RetypedNumbers(fields[..i], previous)
        + (if Retyped(f, previous) then {previous.fields[f.name].number} else {})
      && ((exists g | g in fields[..i + 1] :: Retyped(g, previous))
        <==> (exists g | g in fields[..i] :: Retyped(g, previous)) || Retyped(f, previous))
  {
    assert fields[..i + 1] == fields[..i] + [fields[i]];
  }

  function RemovedNames(fields: seq<Field>, previous: PreviousMessage): set<string> {
    previous.fields.Keys - FieldNames(fields)
  }

  function RemovedNumbers(fields: seq<Field>, previous: PreviousMessage): set<nat> {
    set name | name in RemovedNames(fields, previous) && name in previous.fields :: previous.fields[name].number
  }

  lemma RemovedNumbersAre(fields: seq<Field>, previous: PreviousMessage)
    ensures (set n | n in RemovedNames(fields, previous) && n in previous.fields :: previous.fields[n].number)
      == RemovedNumbers(fields, previous)
  {
  }

  function NextReserved(fields: seq<Field>, previous: PreviousMessage): set<nat> {
    previous.reservedNumbers + RetypedNumbers(fields, previous) + RemovedNumbers(fields, previous)
  }

  function InsertByName(f: Field, sorted: seq<Field>): seq<Field> {
    if sorted == [] then [f]
    else if Before(sorted[0].name, f.name) then [sorted[0]] + InsertByName(f, sorted[1..])
    else [f] + sorted
  }

  /** `sorted(fields, key=name)`. */
  function SortByName(fields: seq<Field>): seq<Field> {
    if fields == [] then [] else InsertByName(fields[0], SortByName(fields[1..]))
  }

  /** The first number from n on that may be assigned. */
  function SkipImplementation(n: nat): nat {
    if FIRST_IMPLEMENTATION_NUMBER <= n <= LAST_IMPLEMENTATION_NUMBER then LAST_IMPLEMENTATION_NUMBER + 1 else n
  }

  /** Numbers the fields that have none, in list order, starting from `next`. */
  function NumberFrom(fields: seq<Field>, next: nat): Option<seq<Field>> {
    if fields == [] then Some([])
    else if fields[0].number != 0 then
      match NumberFrom(fields[1..], next)
      case None => None
      case Some(rest) => Some([fields[0]] + rest)
    else
      var n := SkipImplementation(next);
      if n > MAX_FIELD_NUMBER then None
      else match NumberFrom(fields[1..], n + 1)
        case None => None
        case Some(rest) => Some([fields[0].(number := n)] + rest)
  }

  ghost predicate IsMax(s: set<nat>, m: nat) {
    (s == {} ==> m == 0) && (s != {} ==> m in s) && forall x | x in s :: x <= m
  }

  lemma {:induction false} MaxExists(s: set<nat>) returns (m: nat)
    ensures IsMax(s, m)
  {
    if s == {} {
      m := 0;
    } else {
      var x :| x in s;
      m := MaxExists(s - {x});
      if m < x || s == {x} { m := x; }
      forall y | y in s ensures y <= m { assert y == x || y in s - {x}; }
    }
  }

  /** `max(s, default=0)`. */
  ghost function Max(s: set<nat>): (m: nat)
    ensures IsMax(s, m)
  {
    assert exists m: nat :: IsMax(s, m) by { var m := MaxExists(s); }
    var m: nat :| IsMax(s, m); m
  }

  ghost function Occupied(fields: seq<Field>, previous: PreviousMessage): set<nat> {
    NextReserved(fields, previous) + Used(previous)
  }

  /** What the assignment leaves: the numbered fields, or None when it raises. */
  ghost function Assigned(shape: Shape, previous: Option<PreviousMessage>): Option<Shape> {
    var prior := OrEmpty(previous);
    if FieldNames(shape.fields) !! prior.reservedNames then
      match NumberFrom(SortByName(CarriedAll(shape.fields, prior)), Max(Occupied(shape.fields, prior)) + 1)
      case None => None
      case Some(numbered) => Some(Shape(shape.direction, numbered,
        NextReserved(shape.fields, prior), prior.reservedNames + RemovedNames(shape.fields, prior)))
    else None
  }

  /** Whether the assignment reports a breaking change. */
  ghost predicate Breaks(shape: Shape, previous: Option<PreviousMessage>) {
    var prior := OrEmpty(previous);
    || (exists f | f in shape.fields :: Retyped(f, prior))
    || RemovedNames(shape.fields, prior) != {}
    || (previous.Some? && shape.direction == Request && exists f | f in shape.fields :: Carried(f, prior).number == 0)
  }

  /** The message that the compiled descriptor holds for a numbered shape. */
  function Compiled(shape: Shape): PreviousMessage
    requires DistinctNames(shape.fields)
  {
    PreviousMessage(FieldMap(shape.fields), shape.reservedNumbers, shape.reservedNames)
  }

  function FieldMap(fields: seq<Field>): (r: map<string, PreviousField>)
    requires DistinctNames(fields)
  {
    map f | f in fields :: f.name := PreviousField(f.number, f.Sig())
  }

  // ---------------------------------------------------------------- sorting by name

  ghost predicate SortedByName(fields: seq<Field>) {
    forall i, j | 0 <= i < j < |fields| :: !Before(fields[j].name, fields[i].name)
  }

  lemma {:induction false} InsertKeeps(f: Field, sorted: seq<Field>)
    requires SortedByName(sorted)
    ensures SortedByName(InsertByName(f, sorted))
    ensures multiset(InsertByName(f, sorted)) == multiset(sorted) + multiset{f}
  {
    if sorted == [] {
    } else if Before(sorted[0].name, f.name) {
      InsertKeeps(f, sorted[1..]);
      var r := InsertByName(f, sorted);
      assert sorted == [sorted[0]] + sorted[1..];
      forall j | 0 < j < |r| ensures !Before(r[j].name, r[0].name) {
        assert r[j] in multiset(InsertByName(f, sorted[1..]));
        assert r[j] == f || r[j] in sorted[1..];
        BeforeTotal(sorted[0].name, f.name);
      }
    } else {
      forall j | 0 <= j < |sorted| ensures !Before(sorted[j].name, f.name) {
        if Before(sorted[j].name, f.name) {
          BeforeTotal(sorted[0].name, f.name);
          if j != 0 {
            BeforeTotal(sorted[0].name, sorted[j].name);
            if sorted[0].name != f.name && sorted[0].name != sorted[j].name {
              BeforeTransitive(sorted[j].name, f.name, sorted[0].name);
            }
          }
        }
      }
    }
  }

  lemma {:induction false} SortKeeps(fields: seq<Field>)
    ensures SortedByName(SortByName(fields))
    ensures multiset(SortByName(fields)) == multiset(fields)
  {
    if fields != [] {
      SortKeeps(fields[1..]);
      InsertKeeps(fields[0], SortByName(fields[1..]));
      assert fields == [fields[0]] + fields[1..];
    }
  }

  /** Sorting permutes, so it keeps the elements and the distinctness of names. */
  lemma SortKeepsElements(fields: seq<Field>)
    ensures |SortByName(fields)| == |fields|
    ensures forall f :: f in SortByName(fields) <==> f in fields
    ensures DistinctNames(fields) ==> DistinctNames(SortByName(fields))
  {
    var sorted := SortByName(fields);
    SortKeeps(fields);
    SameElements(sorted, fields);
    if DistinctNames(fields) {
      PermutedNamesDistinct(sorted, fields);
    }
  }

  lemma PermutedNamesDistinct(a: seq<Field>, b: seq<Field>)
    requires multiset(a) == multiset(b) && DistinctNames(b)
    ensures DistinctNames(a)
  {
    SameElements(a, b);
    forall i, j | 0 <= i < j < |a| ensures a[i].name != a[j].name {
      if a[i].name == a[j].name {
        assert a[i] in b && a[j] in b;
        DistinctOnce(b, a[i]);
        OccursTwice(a, i, j);
      }
    }
  }

  lemma SameElements(a: seq<Field>, b: seq<Field>)
    requires multiset(a) == multiset(b)
    ensures |a| == |b| && forall f :: f in a <==> f in b
  {
    assert |multiset(a)| == |a| && |multiset(b)| == |b|;
    forall f ensures f in a <==> f in b {
      assert (f in a <==> f in multiset(a)) && (f in b <==> f in multiset(b));
    }
  }

  lemma OccursTwice(s: seq<Field>, i: nat, j: nat)
    requires i < j < |s| && s[i] == s[j]
    ensures multiset(s)[s[i]] >= 2
  {
    assert s == s[..j] + [s[j]] + s[j+1..];
    assert s[i] in s[..j];
  }

  lemma {:induction false} DistinctOnce(fields: seq<Field>, f: Field)
    requires DistinctNames(fields) && f in fields
    ensures multiset(fields)[f] == 1
  {
    var i :| 0 <= i < |fields| && fields[i] == f;
    assert fields == fields[..i] + [f] + fields[i+1..];
    assert f !in fields[..i] && f !in fields[i+1..];
  }

  // ---------------------------------------------------------------- numbering

  /** Numbered fields stay; the others have legal numbers from `next` on, increasing in list order. */
  ghost predicate NumberedOn(fields: seq<Field>, r: seq<Field>, next: nat) {
    && |r| == |fields|
    && (forall i | 0 <= i < |r| :: r[i] == fields[i].(number := r[i].number))
    && (forall i | 0 <= i < |r| && fields[i].number != 0 :: r[i] == fields[i])
    && (forall i | 0 <= i < |r| && fields[i].number == 0 :: next <= r[i].number && LegalNumber(r[i].number))
    && (forall i, j | 0 <= i < j < |r| && fields[i].number == 0 && fields[j].number == 0 :: r[i].number < r[j].number)
  }

  /** What NumberFrom keeps, and where the new numbers lie. */
  lemma {:induction false} NumberFromSound(fields: seq<Field>, next: nat)
    requires next >= 1 && NumberFrom(fields, next).Some?
    ensures NumberedOn(fields, NumberFrom(fields, next).value, next)
  {
    hide NumberedOn;
    if fields == [] {
      NoneNumbered(next);
    } else {
      var n := SkipImplementation(next);
      var later := if fields[0].number != 0 then next else n + 1;
      NumberFromSound(fields[1..], later);
      var first := if fields[0].number != 0 then fields[0] else fields[0].(number := n);
      NumberedPrepend(fields, NumberFrom(fields[1..], later).value, first, next, later);
    }
  }

  lemma NoneNumbered(next: nat)
    ensures NumberedOn([], [], next)
  {
  }

  lemma NumberedPrepend(fields: seq<Field>, rest: seq<Field>, first: Field, next: nat, later: nat)
    requires fields != [] && NumberedOn(fields[1..], rest, later)
    requires first == fields[0].(number := first.number)
    requires if fields[0].number != 0 then first == fields[0] && later == next
      else next <= first.number < later && LegalNumber(first.number)
    ensures NumberedOn(fields, [first] + rest, next)
  {
    var r := [first] + rest;
    hide LegalNumber;
    assert forall i | 1 <= i < |r| :: r[i] == rest[i - 1] && fields[i] == fields[1..][i - 1];
  }

  // ---------------------------------------------------------------- what one assignment guarantees

  /** The binding of `name` is the same in both messages. */
  ghost predicate Keeps(prior: PreviousMessage, next: PreviousMessage, name: string) {
    name in prior.fields && name in next.fields && prior.fields[name] == next.fields[name]
  }

  ghost predicate Above(n: nat, numbers: set<nat>) {
    forall k | k in numbers :: k < n
  }

  /**
   Nothing the earlier message ever bound or reserved can be bound to anything
   else in the later one, and every other binding of the later one is fresh.
   */
  ghost predicate Retains(prior: PreviousMessage, next: PreviousMessage) {
    && prior.reservedNumbers <= next.reservedNumbers
    && prior.reservedNames <= next.reservedNames
    && (forall n | n in prior.fields :: Keeps(prior, next, n) || prior.fields[n].number in next.reservedNumbers)
    && (forall n | n in prior.fields && n !in next.fields :: n in next.reservedNames)
    && (forall n | n in next.fields :: Keeps(prior, next, n) || Above(next.fields[n].number, Taken(prior)))
  }

  /** The later message only adds fields. */
  ghost predicate MessageExtends(prior: PreviousMessage, next: PreviousMessage) {
    && (forall n | n in prior.fields :: Keeps(prior, next, n))
    && next.reservedNumbers == prior.reservedNumbers
    && next.reservedNames == prior.reservedNames
  }

  predicate Unnumbered(fields: seq<Field>) {
    forall f | f in fields :: f.number == 0
  }

  /** The inputs the generator gives to the assignment. */
  ghost predicate Assignable(shape: Shape, previous: Option<PreviousMessage>) {
    && DistinctNames(shape.fields)
    && Unnumbered(shape.fields)
    && WellNumbered(OrEmpty(previous))
  }

  /** How each field of the result arises from the field of that name. */
  ghost predicate Arises(f: Field, r: Field, prior: PreviousMessage, floor: nat) {
    && r == f.(number := r.number)
    && (Carries(f, prior) ==> r.number == prior.fields[f.name].number)
    && (!Carries(f, prior) ==> floor < r.number && LegalNumber(r.number))
  }

  ghost function Floor(shape: Shape, previous: Option<PreviousMessage>): nat {
    Max(Occupied(shape.fields, OrEmpty(previous)))
  }

  /** The list that is numbered, and what numbering does to its positions. */
  lemma Layout(shape: Shape, previous: Option<PreviousMessage>) returns (sorted: seq<Field>)
    requires Assignable(shape, previous) && Assigned(shape, previous).Some?
    ensures var r := Assigned(shape, previous).value.fields;
      var floor := Floor(shape, previous);
      && |r| == |sorted| == |shape.fields|
      && DistinctNames(r)
      && (forall c :: c in sorted <==> c in CarriedAll(shape.fields, OrEmpty(previous)))
      && (forall i | 0 <= i < |r| :: r[i] == sorted[i].(number := r[i].number))
      && (forall i | 0 <= i < |r| && sorted[i].number != 0 :: r[i] == sorted[i])
      && (forall i | 0 <= i < |r| && sorted[i].number == 0 :: floor < r[i].number && LegalNumber(r[i].number))
      && (forall i, j | 0 <= i < j < |r| && sorted[i].number == 0 && sorted[j].number == 0 :: r[i].number < r[j].number)
  {
    hide CarriedAll, SortByName, NumberFrom, DistinctNames;
    var carried := CarriedAll(shape.fields, OrEmpty(previous));
    sorted := SortByName(carried);
    CarriedKeepsNames(shape.fields, OrEmpty(previous));
    SortKeepsElements(carried);
    NumberFromSound(sorted, Floor(shape, previous) + 1);
    SameNamesDistinct(sorted, Assigned(shape, previous).value.fields);
  }

  lemma ArisesAt(shape: Shape, previous: Option<PreviousMessage>, c: Field, r: Field) returns (f: Field)
    requires Assignable(shape, previous)
    requires c in CarriedAll(shape.fields, OrEmpty(previous))
    requires r == c.(number := r.number) && (c.number != 0 ==> r == c)
    requires c.number == 0 ==> Floor(shape, previous) < r.number && LegalNumber(r.number)
    ensures f in shape.fields && Arises(f, r, OrEmpty(previous), Floor(shape, previous))
    ensures c == Carried(f, OrEmpty(previous))
  {
    f := CarriedFrom(shape.fields, OrEmpty(previous), c);
  }

  /** The field that a result field numbers. */
  lemma ArisesFrom(shape: Shape, previous: Option<PreviousMessage>, g: Field) returns (f: Field)
    requires Assignable(shape, previous) && Assigned(shape, previous).Some?
    requires g in Assigned(shape, previous).value.fields
    ensures f in shape.fields && Arises(f, g, OrEmpty(previous), Floor(shape, previous))
  {
    var sorted := Layout(shape, previous);
    var r := Assigned(shape, previous).value.fields;
    var i :| 0 <= i < |r| && r[i] == g;
    f := ArisesAt(shape, previous, sorted[i], r[i]);
  }

  /** The result field that numbers a given field. */
  lemma ArisesTo(shape: Shape, previous: Option<PreviousMessage>, f: Field) returns (g: Field)
    requires Assignable(shape, previous) && Assigned(shape, previous).Some?
    requires f in shape.fields
    ensures g in Assigned(shape, previous).value.fields && Arises(f, g, OrEmpty(previous), Floor(shape, previous))
  {
    var prior := OrEmpty(previous);
    var sorted := Layout(shape, previous);
    var r := Assigned(shape, previous).value.fields;
    var j :| 0 <= j < |shape.fields| && shape.fields[j] == f;
    assert CarriedAll(shape.fields, prior)[j] == Carried(f, prior);
    assert Carried(f, prior) in sorted;
    var i :| 0 <= i < |sorted| && sorted[i] == Carried(f, prior);
    g := r[i];
    var h := ArisesAt(shape, previous, sorted[i], r[i]);
    assert h.name == f.name;
    var k :| 0 <= k < |shape.fields| && shape.fields[k] == h;
    assert j == k;
  }

  /** No two result fields share a number. */
  lemma NumbersDiffer(shape: Shape, previous: Option<PreviousMessage>, g: Field, h: Field)
    requires Assignable(shape, previous) && Assigned(shape, previous).Some?
    requires g in Assigned(shape, previous).value.fields && h in Assigned(shape, previous).value.fields
    requires g.number == h.number
    ensures g == h
  {
    var prior := OrEmpty(previous);
    var sorted := Layout(shape, previous);
    var r := Assigned(shape, previous).value.fields;
    var i :| 0 <= i < |r| && r[i] == g;
    var j :| 0 <= j < |r| && r[j] == h;
    var f := ArisesAt(shape, previous, sorted[i], r[i]);
    var e := ArisesAt(shape, previous, sorted[j], r[j]);
    if Carries(f, prior) { CarriedBelow(shape, previous, f); }
    if Carries(e, prior) { CarriedBelow(shape, previous, e); }
    if Carries(f, prior) && Carries(e, prior) {
      assert f.name == e.name && r[i].name == r[j].name;
    }
  }

  lemma CarriedKeepsNames(fields: seq<Field>, prior: PreviousMessage)
    ensures DistinctNames(fields) ==> DistinctNames(CarriedAll(fields, prior))
  {
    var c := CarriedAll(fields, prior);
    assert forall i | 0 <= i < |c| :: c[i].name == fields[i].name;
  }

  lemma CarriedFrom(fields: seq<Field>, prior: PreviousMessage, c: Field) returns (f: Field)
    requires c in CarriedAll(fields, prior)
    ensures f in fields && c == Carried(f, prior)
  {
    var j :| 0 <= j < |fields| && CarriedAll(fields, prior)[j] == c;
    f := fields[j];
  }

  lemma CarriedBelow(shape: Shape, previous: Option<PreviousMessage>, f: Field)
    requires Assignable(shape, previous) && f in shape.fields
    requires Carries(f, OrEmpty(previous))
    ensures 0 < OrEmpty(previous).fields[f.name].number <= Floor(shape, previous)
  {
    assert OrEmpty(previous).fields[f.name].number in Used(OrEmpty(previous));
  }

  /** Everything the earlier message bound or reserved lies below the new numbers. */
  lemma TakenBelow(shape: Shape, previous: Option<PreviousMessage>, k: nat)
    requires k in Taken(OrEmpty(previous)) || k in NextReserved(shape.fields, OrEmpty(previous))
    ensures k <= Floor(shape, previous)
  {
  }

  /** The assigned message obeys the language guide's rules. */
  lemma AssignedIsWellNumbered(shape: Shape, previous: Option<PreviousMessage>)
    requires Assignable(shape, previous) && Assigned(shape, previous).Some?
    ensures DistinctNames(Assigned(shape, previous).value.fields)
    ensures WellNumbered(Compiled(Assigned(shape, previous).value))
  {
    var prior := OrEmpty(previous);
    var sorted := Layout(shape, previous);
    var a := Assigned(shape, previous).value;
    var m := Compiled(a);
    forall x, y | x in m.fields && y in m.fields && m.fields[x].number == m.fields[y].number ensures x == y {
      var g :| g in a.fields && g.name == x && m.fields[x].number == g.number;
      var h :| h in a.fields && h.name == y && m.fields[y].number == h.number;
      NumbersDiffer(shape, previous, g, h);
    }
    forall g | g in a.fields
      ensures LegalNumber(g.number) && g.number !in m.reservedNumbers && g.name !in m.reservedNames
    {
      var f := ArisesFrom(shape, previous, g);
      assert f.name in FieldNames(shape.fields);
      if Carries(f, prior) {
        CarriedNotReserved(shape, previous, f);
      } else if g.number in m.reservedNumbers {
        TakenBelow(shape, previous, g.number);
      }
    }
  }

  lemma CarriedNotReserved(shape: Shape, previous: Option<PreviousMessage>, f: Field)
    requires Assignable(shape, previous) && f in shape.fields && Carries(f, OrEmpty(previous))
    ensures OrEmpty(previous).fields[f.name].number !in NextReserved(shape.fields, OrEmpty(previous))
  {
    assert OrEmpty(previous).fields[f.name].number in Used(OrEmpty(previous));
  }

  lemma CompiledBinding(shape: Shape, previous: Option<PreviousMessage>, f: Field)
    requires Assignable(shape, previous) && Assigned(shape, previous).Some?
    requires f in shape.fields
    ensures DistinctNames(Assigned(shape, previous).value.fields)
    ensures var m := Compiled(Assigned(shape, previous).value);
      && f.name in m.fields
      && m.fields[f.name].sig == f.Sig()
      && (Carries(f, OrEmpty(previous)) ==> m.fields[f.name] == OrEmpty(previous).fields[f.name])
      && (!Carries(f, OrEmpty(previous)) ==> m.fields[f.name].number > Floor(shape, previous))
  {
    hide Assigned, Assignable, Compiled, DistinctNames, Floor, CarriedAll;
    var sorted := Layout(shape, previous);
    var g := ArisesTo(shape, previous, f);
    CompiledAt(Assigned(shape, previous).value, g);
  }

  lemma CompiledAt(shape: Shape, g: Field)
    requires DistinctNames(shape.fields) && g in shape.fields
    ensures g.name in Compiled(shape).fields && Compiled(shape).fields[g.name] == PreviousField(g.number, g.Sig())
  {
  }

  lemma CompiledNames(shape: Shape, previous: Option<PreviousMessage>)
    requires Assignable(shape, previous) && Assigned(shape, previous).Some?
    ensures DistinctNames(Assigned(shape, previous).value.fields)
    ensures Compiled(Assigned(shape, previous).value).fields.Keys == FieldNames(shape.fields)
  {
    var sorted := Layout(shape, previous);
    var a := Assigned(shape, previous).value;
    forall n | n in Compiled(a).fields ensures n in FieldNames(shape.fields) {
      var g :| g in a.fields && g.name == n;
      var f := ArisesFrom(shape, previous, g);
    }
    forall f | f in shape.fields ensures f.name in Compiled(a).fields {
      CompiledBinding(shape, previous, f);
    }
  }

  /** One assignment never rebinds a number or brings back a reserved name. */
  lemma AssignedRetains(shape: Shape, previous: Option<PreviousMessage>)
    requires Assignable(shape, previous) && Assigned(shape, previous).Some?
    ensures DistinctNames(Assigned(shape, previous).value.fields)
    ensures Retains(OrEmpty(previous), Compiled(Assigned(shape, previous).value))
  {
    var prior := OrEmpty(previous);
    CompiledNames(shape, previous);
    var m := Compiled(Assigned(shape, previous).value);
    forall n | n in prior.fields
      ensures Keeps(prior, m, n) || prior.fields[n].number in m.reservedNumbers
    {
      if n in FieldNames(shape.fields) {
        var f :| f in shape.fields && f.name == n;
        CompiledBinding(shape, previous, f);
        assert Carries(f, prior) || Retyped(f, prior);
      } else {
        assert n in RemovedNames(shape.fields, prior);
      }
    }
    forall n | n in m.fields
      ensures Keeps(prior, m, n) || Above(m.fields[n].number, Taken(prior))
    {
      var f :| f in shape.fields && f.name == n;
      CompiledBinding(shape, previous, f);
      if !Carries(f, prior) {
        forall k | k in Taken(prior) ensures k < m.fields[n].number {
          TakenBelow(shape, previous, k);
        }
      }
    }
  }

  /** No previous field lost its binding, and an existing request message gained none. */
  ghost predicate Unbroken(direction: Direction, previous: Option<PreviousMessage>, next: PreviousMessage) {
    && (forall n | n in OrEmpty(previous).fields :: Keeps(OrEmpty(previous), next, n))
    && (previous.Some? && direction == Request ==> next.fields.Keys == OrEmpty(previous).fields.Keys)
  }

  lemma CarriedExactly(shape: Shape, previous: Option<PreviousMessage>, f: Field)
    requires Assignable(shape, previous) && Assigned(shape, previous).Some?
    requires f in shape.fields
    ensures DistinctNames(Assigned(shape, previous).value.fields)
    ensures Carries(f, OrEmpty(previous)) <==> Keeps(OrEmpty(previous), Compiled(Assigned(shape, previous).value), f.name)
    ensures Carries(f, OrEmpty(previous)) <==> Carried(f, OrEmpty(previous)).number != 0
  {
    CompiledBinding(shape, previous, f);
    if Carries(f, OrEmpty(previous)) { CarriedBelow(shape, previous, f); }
  }

  /**
   A step is reported as breaking exactly when a previous field lost its
   binding, or an existing request message gained a field.
   */
  lemma BreaksExactly(shape: Shape, previous: Option<PreviousMessage>)
    requires Assignable(shape, previous) && Assigned(shape, previous).Some?
    ensures DistinctNames(Assigned(shape, previous).value.fields)
    ensures !Breaks(shape, previous) <==>
      Unbroken(shape.direction, previous, Compiled(Assigned(shape, previous).value))
  {
    CompiledNames(shape, previous);
    if Breaks(shape, previous) {
      BrokenLosesOrGains(shape, previous);
    } else {
      UnbrokenKeeps(shape, previous);
    }
  }

  lemma BrokenLosesOrGains(shape: Shape, previous: Option<PreviousMessage>)
    requires Assignable(shape, previous) && Assigned(shape, previous).Some? && Breaks(shape, previous)
    ensures DistinctNames(Assigned(shape, previous).value.fields)
    ensures !Unbroken(shape.direction, previous, Compiled(Assigned(shape, previous).value))
  {
    var prior := OrEmpty(previous);
    CompiledNames(shape, previous);
    var next := Compiled(Assigned(shape, previous).value);
    if f :| f in shape.fields && Retyped(f, prior) {
      CarriedExactly(shape, previous, f);
    } else if RemovedNames(shape.fields, prior) != {} {
      var n :| n in RemovedNames(shape.fields, prior);
      assert n !in next.fields;
    } else {
      var f :| f in shape.fields && Carried(f, prior).number == 0;
      CarriedExactly(shape, previous, f);
      assert f.name in next.fields && f.name !in prior.fields;
    }
  }

  lemma UnbrokenKeeps(shape: Shape, previous: Option<PreviousMessage>)
    requires Assignable(shape, previous) && Assigned(shape, previous).Some? && !Breaks(shape, previous)
    ensures DistinctNames(Assigned(shape, previous).value.fields)
    ensures Unbroken(shape.direction, previous, Compiled(Assigned(shape, previous).value))
  {
    var prior := OrEmpty(previous);
    CompiledNames(shape, previous);
    var next := Compiled(Assigned(shape, previous).value);
    forall n | n in prior.fields ensures Keeps(prior, next, n) {
      assert n !in RemovedNames(shape.fields, prior);
      var f :| f in shape.fields && f.name == n;
      CarriedExactly(shape, previous, f);
    }
    if previous.Some? && shape.direction == Request {
      forall n | n in next.fields ensures n in prior.fields {
        var f :| f in shape.fields && f.name == n;
        CarriedExactly(shape, previous, f);
      }
    }
  }

  /** A step that is not breaking is a pure extension of the message. */
  lemma UnbrokenExtends(shape: Shape, previous: Option<PreviousMessage>)
    requires Assignable(shape, previous) && Assigned(shape, previous).Some?
    requires !Breaks(shape, previous)
    ensures DistinctNames(Assigned(shape, previous).value.fields)
    ensures MessageExtends(OrEmpty(previous), Compiled(Assigned(shape, previous).value))
  {
    UnbrokenKeeps(shape, previous);
    assert RetypedNumbers(shape.fields, OrEmpty(previous)) == {};
    assert RemovedNumbers(shape.fields, OrEmpty(previous)) == {};
  }

  /** The message already has exactly the desired fields. */
  ghost predicate Matches(shape: Shape, prior: PreviousMessage) {
    && FieldNames(shape.fields) == prior.fields.Keys
    && forall f | f in shape.fields :: prior.fields[f.name].sig == f.Sig()
  }

  lemma MatchedIsAssignable(shape: Shape, prior: PreviousMessage)
    requires Assignable(shape, Some(prior)) && Matches(shape, prior)
    ensures Assigned(shape, Some(prior)).Some?
    ensures !Breaks(shape, Some(prior))
  {
    hide CarriedAll, Carried, Retyped, SortByName, NumberFrom, NextReserved, WellNumbered;
    var carried := CarriedAll(shape.fields, prior);
    AllCarried(shape, prior);
    SortKeepsElements(carried);
    NothingToNumber(SortByName(carried), Floor(shape, Some(prior)) + 1);
    NothingRemoved(shape, prior);
  }

  lemma AllCarried(shape: Shape, prior: PreviousMessage)
    requires WellNumbered(prior) && Matches(shape, prior)
    ensures forall c | c in CarriedAll(shape.fields, prior) :: c.number != 0
    ensures forall f | f in shape.fields :: Carried(f, prior).number != 0 && !Retyped(f, prior)
  {
    forall c | c in CarriedAll(shape.fields, prior) ensures c.number != 0 {
      var f := CarriedFrom(shape.fields, prior, c);
      assert f.name in FieldNames(shape.fields);
    }
    forall f | f in shape.fields ensures Carried(f, prior).number != 0 && !Retyped(f, prior) {
      assert f.name in FieldNames(shape.fields);
    }
  }

  lemma NothingRemoved(shape: Shape, prior: PreviousMessage)
    requires WellNumbered(prior) && Matches(shape, prior)
    ensures RemovedNames(shape.fields, prior) == {} && FieldNames(shape.fields) !! prior.reservedNames
  {
  }

  /** A message that already has exactly the desired fields is left as it is. */
  lemma AssignedAgain(shape: Shape, prior: PreviousMessage)
    requires Assignable(shape, Some(prior)) && Matches(shape, prior)
    ensures Assigned(shape, Some(prior)).Some?
    ensures DistinctNames(Assigned(shape, Some(prior)).value.fields)
    ensures Compiled(Assigned(shape, Some(prior)).value) == prior
    ensures !Breaks(shape, Some(prior))
  {
    MatchedIsAssignable(shape, prior);
    CompiledNames(shape, Some(prior));
    UnbrokenExtends(shape, Some(prior));
  }

  lemma {:induction false} NothingToNumber(fields: seq<Field>, next: nat)
    requires forall f | f in fields :: f.number != 0
    ensures NumberFrom(fields, next) == Some(fields)
  {
    if fields != [] {
      NothingToNumber(fields[1..], next);
      assert fields == [fields[0]] + fields[1..];
    }
  }

  /** Numbering neither creates nor removes a clash of names. */
  lemma AssignedKeepsClashes(shape: Shape, previous: Option<PreviousMessage>)
    requires Assigned(shape, previous).Some? && DistinctNames(Assigned(shape, previous).value.fields)
    ensures DistinctNames(shape.fields)
  {
    hide SortByName, NumberFrom, CarriedAll;
    var carried := CarriedAll(shape.fields, OrEmpty(previous));
    SortKeeps(carried);
    NumberFromSound(SortByName(carried), Floor(shape, previous) + 1);
    SameNamesDistinct(Assigned(shape, previous).value.fields, SortByName(carried));
    PermutedNamesDistinct(carried, SortByName(carried));
    SameNamesDistinct(carried, shape.fields);
  }

  lemma SameNamesDistinct(a: seq<Field>, b: seq<Field>)
    requires DistinctNames(a) && |a| == |b| && forall i | 0 <= i < |a| :: a[i].name == b[i].name
    ensures DistinctNames(b)
  {
    forall i, j | 0 <= i < j < |b| ensures b[i].name != b[j].name {
      assert a[i].name != a[j].name;
    }
  }

  // ---------------------------------------------------------------- over several steps

  lemma TakenGrows(a: PreviousMessage, b: PreviousMessage)
    requires Retains(a, b)
    ensures Taken(a) <= Taken(b)
  {
    forall n | n in a.fields ensures a.fields[n].number in Taken(b) {
      if Keeps(a, b, n) {
        assert b.fields[n].number in Used(b);
      }
    }
  }

  lemma RetainsTransitive(a: PreviousMessage, b: PreviousMessage, c: PreviousMessage)
    requires Retains(a, b) && Retains(b, c)
    ensures Retains(a, c)
  {
    TakenGrows(a, b);
    forall n | n in a.fields ensures Keeps(a, c, n) || a.fields[n].number in c.reservedNumbers {
      if Keeps(a, b, n) {
        assert Keeps(b, c, n) || b.fields[n].number in c.reservedNumbers;
      }
    }
    forall n | n in c.fields ensures Keeps(a, c, n) || Above(c.fields[n].number, Taken(a)) {
      if Keeps(b, c, n) {
        assert Keeps(a, b, n) || Above(b.fields[n].number, Taken(a));
      }
    }
  }

  /** A number means the same thing in both messages wherever both bind it. */
  lemma RetainedNumberIsStable(a: PreviousMessage, b: PreviousMessage, x: string, y: string)
    requires Retains(a, b) && WellNumbered(b)
    requires x in a.fields && y in b.fields && a.fields[x].number == b.fields[y].number
    ensures x == y && a.fields[x] == b.fields[y]
  {
    assert b.fields[y].number in Used(b);
  }

  // ---------------------------------------------------------------- exhaustion

  function CountUnnumbered(fields: seq<Field>): nat {
    if fields == [] then 0 else (if fields[0].number == 0 then 1 else 0) + CountUnnumbered(fields[1..])
  }

  /** The last of `count` consecutive assignable numbers from `next` on. */
  function LastAssigned(next: nat, count: nat): int {
    var below := if next < FIRST_IMPLEMENTATION_NUMBER then FIRST_IMPLEMENTATION_NUMBER - next else 0;
    if next > LAST_IMPLEMENTATION_NUMBER || count <= below then next + count - 1
    else LAST_IMPLEMENTATION_NUMBER + count - below
  }

  /** Numbering fails exactly when the last number needed lies beyond the field space. */
  lemma {:induction false} ExhaustedExactly(fields: seq<Field>, next: nat)
    requires next >= 1
    ensures NumberFrom(fields, next).None? <==>
      CountUnnumbered(fields) > 0 && LastAssigned(next, CountUnnumbered(fields)) > MAX_FIELD_NUMBER
  {
    if fields != [] {
      if fields[0].number != 0 {
        ExhaustedExactly(fields[1..], next);
      } else {
        ExhaustedExactly(fields[1..], SkipImplementation(next) + 1);
      }
    }
  }

  /** Without a previous message, a message is numbered exactly when it has no more fields than there are numbers. */
  lemma FirstNumberedExactly(shape: Shape)
    requires Unnumbered(shape.fields)
    ensures Assigned(shape, None).Some? <==> |shape.fields| <= CAPACITY
  {
    hide SortByName, NumberFrom;
    var carried := CarriedAll(shape.fields, NO_MESSAGE);
    SortKeepsElements(carried);
    CountAll(SortByName(carried));
    ExhaustedExactly(SortByName(carried), 1);
    assert Occupied(shape.fields, NO_MESSAGE) == {};
  }

  lemma {:induction false} CountAll(fields: seq<Field>)
    requires forall f | f in fields :: f.number == 0
    ensures CountUnnumbered(fields) == |fields|
  {
    if fields != [] { CountAll(fields[1..]); }
  }

  // ---------------------------------------------------------------- the numbering loops

  /** A message under construction. */
  class MessageShape {
    const name: string
    const direction: Direction
    var fields: seq<Field>
    var reservedNumbers: set<nat>
    var reservedNames: set<string>

    constructor (name: string, direction: Direction)
      ensures this.name == name && Value() == Shape(direction, [], {}, {})
    {
      this.name := name;
      this.direction := direction;
      fields, reservedNumbers, reservedNames := [], {}, {};
    }

    function Value(): Shape
      reads this
    {
      Shape(direction, fields, reservedNumbers, reservedNames)
    }

    /** Numbers the fields in place; fails exactly when the specification has no value. */
    method AssignNumbers(previous: Option<PreviousMessage>) returns (breaking: Option<bool>)
      requires Unnumbered(fields)
      modifies this
      ensures match Assigned(old(Value()), previous)
        case None => breaking == None
        case Some(result) => Value() == result && breaking == Some(Breaks(old(Value()), previous))
    {
      hide NumberFrom, SortByName, CarriedAll, Retyped, RetypedNumbers, RemovedNumbers, Used, Max, FieldNames;
      ghost var shape := Value();
      var prior := OrEmpty(previous);
      var desired := FieldNames(fields);
      if !(desired !! prior.reservedNames) {
        return None;
      }
      var retyped := CarryNumbers(prior);
      var removed := prior.fields.Keys - desired;
      assert removed == RemovedNames(shape.fields, prior);
      RemovedNumbersAre(shape.fields, prior);
      reservedNumbers := reservedNumbers + (set n | n in removed && n in prior.fields :: prior.fields[n].number);
      reservedNames := prior.reservedNames + removed;
      assert reservedNumbers == NextReserved(shape.fields, prior);
      var occupied := reservedNumbers + Used(prior);
      var highest := HighestOf(occupied);
      var incomplete := exists f | f in fields :: f.number == 0;
      NeedsNumberExactly(shape, prior);
      fields := SortByName(fields);
      var done := NumberInOrder(occupied, highest + 1);
      breaking := if done
        then Some(retyped || removed != {} || (previous.Some? && direction == Request && incomplete))
        else None;
    }

    /** Takes over the numbers of unchanged fields and retires those of retyped ones. */
    method CarryNumbers(prior: PreviousMessage) returns (broken: bool)
      requires Unnumbered(fields)
      modifies this`fields, this`reservedNumbers
      ensures fields == CarriedAll(old(fields), prior)
      ensures reservedNumbers == prior.reservedNumbers + RetypedNumbers(old(fields), prior)
      ensures broken <==> exists f | f in old(fields) :: Retyped(f, prior)
    {
      hide RetypedNumbers, Retyped;
      ghost var before := fields;
      reservedNumbers, broken := prior.reservedNumbers, false;
      var i := 0;
      NoneRetyped(prior);
      while i < |fields|
        invariant 0 <= i <= |fields| == |before|
        invariant forall j | 0 <= j < i :: fields[j] == Carried(before[j], prior)
        invariant forall j | i <= j < |fields| :: fields[j] == before[j]
        invariant reservedNumbers == prior.reservedNumbers + RetypedNumbers(before[..i], prior)
        invariant broken <==> exists f | f in before[..i] :: Retyped(f, prior)
      {
        var item := fields[i];
        RetypedStep(before, i, prior);
        if item.name in prior.fields {
          var known := prior.fields[item.name];
          if known.sig == item.Sig() {
            fields := fields[i := item.(number := known.number)];
          } else {
            reservedNumbers, broken := reservedNumbers + {known.number}, true;
          }
        }
        i := i + 1;
      }
      assert before[..i] == before;
    }

    /** Gives each unnumbered field the next free number, in list order. */
    method NumberInOrder(taken: set<nat>, start: nat) returns (done: bool)
      requires start >= 1 && Above(start, taken)
      modifies this`fields
      ensures done <==> NumberFrom(old(fields), start).Some?
      ensures done ==> fields == NumberFrom(old(fields), start).value
    {
      ghost var before := fields;
      var occupied: set<nat>, next, i := taken, start, 0;
      assert before == fields[0..];
      assert Prepended([], NumberFrom(before, next)) == NumberFrom(before, next) by { PrependedNothing(NumberFrom(before, next)); }
      while i < |fields|
        invariant 0 <= i <= |fields| == |before|
        invariant 1 <= next && Above(next, occupied)
        invariant fields[i..] == before[i..]
        invariant NumberFrom(before, start) == Prepended(fields[..i], NumberFrom(before[i..], next))
      {
        ghost var head, from := fields[..i], next;
        assert before[i..][0] == fields[i] && before[i..][1..] == before[i+1..];
        if fields[i].number == 0 {
          next := FirstFree(occupied, next);
          if next > MAX_FIELD_NUMBER {
            return false;
          }
          fields := fields[i := fields[i].(number := next)];
          occupied := occupied + {next};
          next := next + 1;
        }
        assert fields[..i+1] == head + [fields[i]];
        PrependedStep(head, fields[i], NumberFrom(before[i+1..], next));
        assert NumberFrom(before[i..], from) == Prepended([fields[i]], NumberFrom(before[i+1..], next));
        i := i + 1;
      }
      assert fields[..i] == fields && fields[..i] + [] == fields;
      return true;
    }
  }

  ghost function Prepended(head: seq<Field>, rest: Option<seq<Field>>): Option<seq<Field>> {
    match rest case None => None case Some(r) => Some(head + r)
  }

  lemma PrependedStep(head: seq<Field>, f: Field, rest: Option<seq<Field>>)
    ensures Prepended(head, Prepended([f], rest)) == Prepended(head + [f], rest)
  {
    if rest.Some? {
      assert head + ([f] + rest.value) == head + [f] + rest.value;
    }
  }

  lemma PrependedNothing(rest: Option<seq<Field>>)
    ensures Prepended([], rest) == rest
  {
    if rest.Some? {
      assert [] + rest.value == rest.value;
    }
  }

  /** The first number from `start` on that is neither occupied nor set aside by protobuf. */
  method FirstFree(occupied: set<nat>, start: nat) returns (next: nat)
    requires Above(start, occupied)
    ensures next == SkipImplementation(start)
  {
    next := start;
    while next in occupied || FIRST_IMPLEMENTATION_NUMBER <= next <= LAST_IMPLEMENTATION_NUMBER
      invariant start <= next <= SkipImplementation(start)
      invariant next != start ==> start >= FIRST_IMPLEMENTATION_NUMBER
      decreases SkipImplementation(start) - next
    {
      next := next + 1;
    }
  }

  method HighestOf(numbers: set<nat>) returns (highest: nat)
    ensures highest == Max(numbers)
  {
    highest := 0;
    var rest := numbers;
    while rest != {}
      invariant rest <= numbers
      invariant forall x | x in numbers && x !in rest :: x <= highest
      invariant highest == 0 || highest in numbers
    {
      var x :| x in rest;
      if x > highest {
        highest := x;
      }
      rest := rest - {x};
    }
    if numbers != {} {
      var x :| x in numbers;
      assert x <= highest;
    }
    assert IsMax(numbers, highest);
  }

  lemma NeedsNumberExactly(shape: Shape, prior: PreviousMessage)
    ensures (exists f | f in CarriedAll(shape.fields, prior) :: f.number == 0)
      <==> (exists f | f in shape.fields :: Carried(f, prior).number == 0)
  {
    var carried := CarriedAll(shape.fields, prior);
    forall f | f in shape.fields ensures Carried(f, prior) in carried {
      var i :| 0 <= i < |shape.fields| && shape.fields[i] == f;
      assert carried[i] == Carried(f, prior);
    }
  }
}
