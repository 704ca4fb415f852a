/** One assignment of numbers, told completely on the compiled message. */
module NumberingFacts {
  import opened Prelude
  import opened Names
  import opened Numbering

  /** Numbers below the one given to a field were given to fields before it. */
  ghost predicate DenseFrom(fields: seq<Field>, r: seq<Field>, next: nat)
    requires |r| == |fields|
  {
    forall i, k | 0 <= i < |r| && fields[i].number == 0 && next <= k < r[i].number && LegalNumber(k) :: GivenBefore(fields, r, i, k)
  }

  predicate GivenBefore(fields: seq<Field>, r: seq<Field>, i: nat, k: int)
    requires |r| == |fields|
  {
    exists j | 0 <= j < |r| :: j < i && fields[j].number == 0 && r[j].number == k
  }

  lemma {:induction false} NumberFromDense(fields: seq<Field>, next: nat)
    requires next >= 1 && NumberFrom(fields, next).Some?
    ensures |NumberFrom(fields, next).value| == |fields|
    ensures DenseFrom(fields, NumberFrom(fields, next).value, next)
  {
    if fields != [] {
      var n := SkipImplementation(next);
      var later := if fields[0].number != 0 then next else n + 1;
      var rest := NumberFrom(fields[1..], later).value;
      NumberFromDense(fields[1..], later);
      DensePrepend(fields, rest, NumberFrom(fields, next).value[0], next, later);
    }
  }

  lemma DensePrepend(fields: seq<Field>, rest: seq<Field>, first: Field, next: nat, later: nat)
    requires fields != [] && |rest| == |fields| - 1 && DenseFrom(fields[1..], rest, later)
    requires if fields[0].number != 0 then later == next
      else first.number == SkipImplementation(next) && later == first.number + 1
    ensures DenseFrom(fields, [first] + rest, next)
  {
    var r := [first] + rest;
    forall i, k | 0 <= i < |r| && fields[i].number == 0 && next <= k < r[i].number && LegalNumber(k)
      ensures GivenBefore(fields, r, i, k)
    {
      if i > 0 {
        if k >= later {
          assert fields[1..][i - 1] == fields[i] && rest[i - 1] == r[i];
          assert GivenBefore(fields[1..], rest, i - 1, k);
          var j :| 0 <= j < |rest| && j < i - 1 && fields[1..][j].number == 0 && rest[j].number == k;
          assert r[j + 1] == rest[j] && fields[j + 1] == fields[1..][j];
        } else {
          assert r[0].number == k && fields[0].number == 0;
        }
      }
    }
  }

  // ---------------------------------------------------------------- the reference definition

  /** The name has no binding of the same signature in the earlier message. */
  predicate Fresh(prior: PreviousMessage, m: PreviousMessage, n: string) {
    n in m.fields && !(n in prior.fields && prior.fields[n].sig == m.fields[n].sig)
  }

  ghost predicate FreshNumber(prior: PreviousMessage, m: PreviousMessage, k: int) {
    exists n | n in m.fields :: Fresh(prior, m, n) && m.fields[n].number == k
  }

  /** Exactly the wanted fields, with their types and labels. */
  ghost predicate HasFields(m: PreviousMessage, fields: seq<Field>) {
    && m.fields.Keys == FieldNames(fields)
    && forall f | f in fields :: f.name in m.fields && m.fields[f.name].sig == f.Sig()
  }

  /** New numbers follow all earlier ones without a gap, in the order of the names. */
  ghost predicate NumbersFollow(prior: PreviousMessage, m: PreviousMessage) {
    && (forall n | Fresh(prior, m, n) :: LegalNumber(m.fields[n].number) && Above(m.fields[n].number, Taken(prior)))
    && (forall x, y | Fresh(prior, m, x) && Fresh(prior, m, y) && Before(x, y) :: m.fields[x].number < m.fields[y].number)
    && (forall n, k: nat | Fresh(prior, m, n) && LegalNumber(k) && Above(k, Taken(prior)) && k < m.fields[n].number ::
          FreshNumber(prior, m, k))
  }

  /** Exactly what was lost is reserved, on top of what was. */
  ghost predicate ReservesLost(prior: PreviousMessage, m: PreviousMessage) {
    && m.reservedNames == prior.reservedNames + (prior.fields.Keys - m.fields.Keys)
    && m.reservedNumbers == prior.reservedNumbers + set n | n in prior.fields && !Keeps(prior, m, n) :: prior.fields[n].number
  }

  /** The message that the wanted fields become after the earlier one. */
  ghost predicate IsNumbering(fields: seq<Field>, prior: PreviousMessage, m: PreviousMessage) {
    && HasFields(m, fields)
    && (forall n | n in m.fields && !Fresh(prior, m, n) :: m.fields[n] == prior.fields[n])
    && NumbersFollow(prior, m)
    && ReservesLost(prior, m)
  }

  // ---------------------------------------------------------------- there is only one

  lemma SameFresh(fields: seq<Field>, prior: PreviousMessage, a: PreviousMessage, b: PreviousMessage, n: string)
    requires HasFields(a, fields) && HasFields(b, fields)
    ensures Fresh(prior, a, n) <==> Fresh(prior, b, n)
  {
    if n in FieldNames(fields) {
      var f :| f in fields && f.name == n;
      assert a.fields[n].sig == f.Sig() == b.fields[n].sig;
    }
  }

  /** A smaller number for one name means a smaller number for a name before it, without end. */
  lemma {:induction false} NotSmaller(fields: seq<Field>, prior: PreviousMessage, a: PreviousMessage, b: PreviousMessage, n: string)
    requires HasFields(a, fields) && HasFields(b, fields) && NumbersFollow(prior, a) && NumbersFollow(prior, b)
    requires Fresh(prior, a, n) && Fresh(prior, b, n)
    ensures a.fields[n].number >= b.fields[n].number
    decreases a.fields[n].number
  {
    if a.fields[n].number < b.fields[n].number {
      var k := a.fields[n].number;
      assert FreshNumber(prior, b, k);
      var x :| x in b.fields && Fresh(prior, b, x) && b.fields[x].number == k;
      BeforeTotal(x, n);
      SameFresh(fields, prior, a, b, x);
      NotSmaller(fields, prior, a, b, x);
    }
  }

  lemma NumberingIsUnique(fields: seq<Field>, prior: PreviousMessage, a: PreviousMessage, b: PreviousMessage)
    requires IsNumbering(fields, prior, a) && IsNumbering(fields, prior, b)
    ensures a == b
  {
    hide NumbersFollow, ReservesLost;
    forall n | n in a.fields ensures n in b.fields && a.fields[n] == b.fields[n] {
      var f :| f in fields && f.name == n;
      SameFresh(fields, prior, a, b, n);
      if Fresh(prior, a, n) {
        NotSmaller(fields, prior, a, b, n);
        NotSmaller(fields, prior, b, a, n);
      }
    }
    assert a.fields == b.fields;
    SameReserved(prior, a, b);
  }

  lemma SameReserved(prior: PreviousMessage, a: PreviousMessage, b: PreviousMessage)
    requires ReservesLost(prior, a) && ReservesLost(prior, b) && a.fields == b.fields
    ensures a == b
  {
    assert forall n :: Keeps(prior, a, n) <==> Keeps(prior, b, n);
  }

  // ---------------------------------------------------------------- the assignment yields it

  /** The assignment of the shape succeeds and is compiled to m. */
  ghost predicate CompilesTo(shape: Shape, previous: Option<PreviousMessage>, m: PreviousMessage) {
    && Assigned(shape, previous).Some? && DistinctNames(Assigned(shape, previous).value.fields)
    && m == Compiled(Assigned(shape, previous).value)
  }

  lemma WantedFields(shape: Shape, previous: Option<PreviousMessage>, m: PreviousMessage)
    requires Assignable(shape, previous) && CompilesTo(shape, previous, m)
    ensures HasFields(m, shape.fields)
    ensures forall n | n in m.fields && !Fresh(OrEmpty(previous), m, n) :: m.fields[n] == OrEmpty(previous).fields[n]
    ensures forall n | n in m.fields :: Fresh(OrEmpty(previous), m, n) <==> !Keeps(OrEmpty(previous), m, n)
  {
    hide Assigned, Assignable, Compiled, DistinctNames;
    CompiledNames(shape, previous);
    forall f | f in shape.fields
      ensures m.fields[f.name].sig == f.Sig()
      ensures !Fresh(OrEmpty(previous), m, f.name) ==> m.fields[f.name] == OrEmpty(previous).fields[f.name]
    {
      CompiledBinding(shape, previous, f);
    }
  }

  /** The largest number that the earlier message bound or reserved. */
  lemma FloorIsHighest(shape: Shape, previous: Option<PreviousMessage>)
    ensures IsMax(Taken(OrEmpty(previous)), Floor(shape, previous))
  {
    var prior := OrEmpty(previous);
    assert RetypedNumbers(shape.fields, prior) <= Used(prior) && RemovedNumbers(shape.fields, prior) <= Used(prior);
    assert Occupied(shape.fields, prior) == Taken(prior);
  }

  /** The numbered list and where its new numbers lie. */
  lemma Places(shape: Shape, previous: Option<PreviousMessage>, m: PreviousMessage) returns (sorted: seq<Field>, r: seq<Field>)
    requires Assignable(shape, previous) && CompilesTo(shape, previous, m)
    ensures r == Assigned(shape, previous).value.fields
    ensures SortedByName(sorted) && NumberedOn(sorted, r, Floor(shape, previous) + 1)
    ensures |r| == |sorted| && DenseFrom(sorted, r, Floor(shape, previous) + 1)
    ensures forall c :: c in sorted <==> c in CarriedAll(shape.fields, OrEmpty(previous))
  {
    hide SortByName, NumberFrom, CarriedAll, SortedByName, NumberedOn, DenseFrom;
    var carried := CarriedAll(shape.fields, OrEmpty(previous));
    sorted := SortByName(carried);
    SortKeeps(carried);
    SortKeepsElements(carried);
    NumberFromSound(sorted, Floor(shape, previous) + 1);
    NumberFromDense(sorted, Floor(shape, previous) + 1);
    r := Assigned(shape, previous).value.fields;
  }

  /** Where a fresh name stands in the numbered list. */
  lemma PlaceOf(shape: Shape, previous: Option<PreviousMessage>, m: PreviousMessage, sorted: seq<Field>, r: seq<Field>, n: string)
    returns (i: nat)
    requires Assignable(shape, previous) && CompilesTo(shape, previous, m) && r == Assigned(shape, previous).value.fields
    requires NumberedOn(sorted, r, Floor(shape, previous) + 1) && Fresh(OrEmpty(previous), m, n)
    requires forall c :: c in sorted <==> c in CarriedAll(shape.fields, OrEmpty(previous))
    ensures i < |r| == |sorted| && sorted[i].name == n == r[i].name && sorted[i].number == 0 && m.fields[n].number == r[i].number
  {
    hide Assigned, NumberedOn, CarriedAll;
    i := PlaceIn(Assigned(shape, previous).value, m, n);
    SameNames(sorted, r, Floor(shape, previous) + 1);
    assert sorted[i] in CarriedAll(shape.fields, OrEmpty(previous));
    var f := CarriedFrom(shape.fields, OrEmpty(previous), sorted[i]);
    WantedFields(shape, previous, m);
    assert f.number == 0 && !Carries(f, OrEmpty(previous));
  }

  lemma PlaceIn(shape: Shape, m: PreviousMessage, n: string) returns (i: nat)
    requires DistinctNames(shape.fields) && m == Compiled(shape) && n in m.fields
    ensures i < |shape.fields| && shape.fields[i].name == n && m.fields[n].number == shape.fields[i].number
  {
    var f :| f in shape.fields && f.name == n;
    i :| 0 <= i < |shape.fields| && shape.fields[i] == f;
    CompiledAt(shape, f);
  }

  lemma SameNames(sorted: seq<Field>, r: seq<Field>, next: nat)
    requires NumberedOn(sorted, r, next)
    ensures |sorted| == |r| && forall i | 0 <= i < |r| :: r[i].name == sorted[i].name
  {
  }

  /** The name of a place with a new number is fresh. */
  lemma FreshAt(shape: Shape, previous: Option<PreviousMessage>, m: PreviousMessage, sorted: seq<Field>, r: seq<Field>, i: nat)
    requires Assignable(shape, previous) && CompilesTo(shape, previous, m) && r == Assigned(shape, previous).value.fields
    requires NumberedOn(sorted, r, Floor(shape, previous) + 1) && i < |r| && sorted[i].number == 0
    ensures r[i].name in m.fields && Fresh(OrEmpty(previous), m, r[i].name) && m.fields[r[i].name].number == r[i].number
  {
    hide Assigned;
    CompiledAt(Assigned(shape, previous).value, r[i]);
    WantedFields(shape, previous, m);
    FloorIsHighest(shape, previous);
    BoundIsTaken(OrEmpty(previous), r[i].name);
  }

  lemma BoundIsTaken(m: PreviousMessage, n: string)
    ensures n in m.fields ==> m.fields[n].number in Taken(m)
  {
  }

  lemma FreshInNameOrder(shape: Shape, previous: Option<PreviousMessage>, m: PreviousMessage, x: string, y: string)
    requires Assignable(shape, previous) && CompilesTo(shape, previous, m)
    requires Fresh(OrEmpty(previous), m, x) && Fresh(OrEmpty(previous), m, y) && Before(x, y)
    ensures m.fields[x].number < m.fields[y].number
  {
    hide Assignable, CompilesTo, DenseFrom, CarriedAll, Fresh;
    var sorted, r := Places(shape, previous, m);
    var i := PlaceOf(shape, previous, m, sorted, r, x);
    var j := PlaceOf(shape, previous, m, sorted, r, y);
    BeforeTotal(x, y);
  }

  lemma FreshAreDense(shape: Shape, previous: Option<PreviousMessage>, m: PreviousMessage, n: string, k: nat)
    requires Assignable(shape, previous) && CompilesTo(shape, previous, m)
    requires Fresh(OrEmpty(previous), m, n) && LegalNumber(k) && Above(k, Taken(OrEmpty(previous))) && k < m.fields[n].number
    ensures FreshNumber(OrEmpty(previous), m, k)
  {
    hide Assignable, CompilesTo, CarriedAll, Fresh, SortedByName, NumberedOn;
    var sorted, r := Places(shape, previous, m);
    var i := PlaceOf(shape, previous, m, sorted, r, n);
    FloorIsHighest(shape, previous);
    assert GivenBefore(sorted, r, i, k);
    var j :| 0 <= j < |r| && j < i && sorted[j].number == 0 && r[j].number == k;
    FreshAt(shape, previous, m, sorted, r, j);
  }

  lemma FreshAreAbove(shape: Shape, previous: Option<PreviousMessage>, m: PreviousMessage, n: string)
    requires Assignable(shape, previous) && CompilesTo(shape, previous, m) && Fresh(OrEmpty(previous), m, n)
    ensures LegalNumber(m.fields[n].number) && Above(m.fields[n].number, Taken(OrEmpty(previous)))
  {
    hide Assignable, CompilesTo, CarriedAll, Fresh, SortedByName, DenseFrom, LegalNumber;
    var sorted, r := Places(shape, previous, m);
    var i := PlaceOf(shape, previous, m, sorted, r, n);
    FloorIsHighest(shape, previous);
  }

  lemma LostIsReserved(shape: Shape, previous: Option<PreviousMessage>, m: PreviousMessage)
    requires Assignable(shape, previous) && CompilesTo(shape, previous, m)
    ensures ReservesLost(OrEmpty(previous), m)
  {
    var prior := OrEmpty(previous);
    WantedFields(shape, previous, m);
    hide Assignable, WellNumbered, DistinctNames;
    forall n | n in prior.fields
      ensures !Keeps(prior, m, n) <==> n in RemovedNames(shape.fields, prior) || exists f | f in shape.fields :: f.name == n && Retyped(f, prior)
    {
      if n in FieldNames(shape.fields) {
        var f :| f in shape.fields && f.name == n;
        assert m.fields[n].sig == f.Sig();
      }
    }
    LostNumbers(shape.fields, prior, m);
  }

  lemma LostNumbers(fields: seq<Field>, prior: PreviousMessage, m: PreviousMessage)
    requires forall n | n in prior.fields ::
      !Keeps(prior, m, n) <==> n in RemovedNames(fields, prior) || exists f | f in fields :: f.name == n && Retyped(f, prior)
    ensures RetypedNumbers(fields, prior) + RemovedNumbers(fields, prior)
      == set n | n in prior.fields && !Keeps(prior, m, n) :: prior.fields[n].number
  {
    hide Keeps;
  }

  /** The assignment yields the one message that keeps, follows and reserves as it must. */
  lemma AssignedIsNumbering(shape: Shape, previous: Option<PreviousMessage>, m: PreviousMessage)
    requires Assignable(shape, previous)
    requires CompilesTo(shape, previous, m)
    ensures IsNumbering(shape.fields, OrEmpty(previous), m)
  {
    hide Assignable, CompilesTo, ReservesLost, HasFields, LegalNumber, Above, FreshNumber;
    WantedFields(shape, previous, m);
    LostIsReserved(shape, previous, m);
    var prior := OrEmpty(previous);
    forall n | Fresh(prior, m, n) ensures LegalNumber(m.fields[n].number) && Above(m.fields[n].number, Taken(prior)) {
      FreshAreAbove(shape, previous, m, n);
    }
    forall x, y | Fresh(prior, m, x) && Fresh(prior, m, y) && Before(x, y) ensures m.fields[x].number < m.fields[y].number {
      FreshInNameOrder(shape, previous, m, x, y);
    }
    forall n, k: nat | Fresh(prior, m, n) && LegalNumber(k) && Above(k, Taken(prior)) && k < m.fields[n].number
      ensures FreshNumber(prior, m, k)
    {
      FreshAreDense(shape, previous, m, n, k);
    }
  }

  // ---------------------------------------------------------------- it fails only when there is none

  /** Legal numbers from `next` on, increasing. */
  predicate Ladder(ks: seq<nat>, next: nat) {
    && (forall i | 0 <= i < |ks| :: next <= ks[i] && LegalNumber(ks[i]))
    && (forall i, j | 0 <= i < j < |ks| :: ks[i] < ks[j])
  }

  /** Numbering succeeds when any legal numbers will do. */
  lemma {:induction false} EnoughNumbers(fields: seq<Field>, next: nat, ks: seq<nat>)
    requires next >= 1 && Ladder(ks, next) && |ks| == CountUnnumbered(fields)
    ensures NumberFrom(fields, next).Some?
  {
    if fields != [] {
      if fields[0].number != 0 {
        EnoughNumbers(fields[1..], next, ks);
      } else {
        var n := SkipImplementation(next);
        assert next <= ks[0] && LegalNumber(ks[0]);
        assert Ladder(ks[1..], n + 1);
        EnoughNumbers(fields[1..], n + 1, ks[1..]);
      }
    }
  }

  /** The numbers that m gives to the unnumbered fields of a list. */
  function NumbersIn(fields: seq<Field>, m: PreviousMessage): seq<nat> {
    if fields == [] then []
    else
      var rest := NumbersIn(fields[1..], m);
      if fields[0].number == 0 && fields[0].name in m.fields then [m.fields[fields[0].name].number] + rest else rest
  }

  /** What is needed of m for a list of fields in name order. */
  ghost predicate Serves(fields: seq<Field>, prior: PreviousMessage, m: PreviousMessage) {
    && SortedByName(fields) && DistinctNames(fields)
    && forall f | f in fields :: f.name in m.fields && (f.number == 0 ==> Fresh(prior, m, f.name))
  }

  lemma {:induction false} NumbersInAreLadder(fields: seq<Field>, prior: PreviousMessage, m: PreviousMessage, next: nat)
    requires Serves(fields, prior, m) && NumbersFollow(prior, m)
    requires forall k: nat | Above(k, Taken(prior)) && k >= 1 :: k >= next
    ensures |NumbersIn(fields, m)| == CountUnnumbered(fields) && Ladder(NumbersIn(fields, m), next)
    ensures forall k | k in NumbersIn(fields, m) :: exists f | f in fields :: f.number == 0 && f.name in m.fields && m.fields[f.name].number == k
  {
    hide Fresh, Above, LegalNumber;
    if fields != [] {
      var rest := fields[1..];
      RestServes(fields, prior, m);
      NumbersInAreLadder(rest, prior, m, next);
      if fields[0].number == 0 {
        var k := m.fields[fields[0].name].number;
        assert Fresh(prior, m, fields[0].name);
        forall l | l in NumbersIn(rest, m) ensures k < l {
          var f :| f in rest && f.number == 0 && f.name in m.fields && m.fields[f.name].number == l;
          FirstIsBefore(fields, f);
          assert Fresh(prior, m, f.name);
        }
        FreshIsLegal(prior, m, fields[0].name);
        LadderPrepend(k, NumbersIn(rest, m), next);
      }
      assert forall f | f in rest :: f in fields;
    }
  }

  lemma FreshIsLegal(prior: PreviousMessage, m: PreviousMessage, n: string)
    requires NumbersFollow(prior, m) && Fresh(prior, m, n)
    ensures LegalNumber(m.fields[n].number) && Above(m.fields[n].number, Taken(prior)) && m.fields[n].number >= 1
  {
  }

  lemma LadderPrepend(k: nat, ks: seq<nat>, next: nat)
    requires Ladder(ks, next) && LegalNumber(k) && next <= k && forall l | l in ks :: k < l
    ensures Ladder([k] + ks, next)
  {
    hide LegalNumber;
    assert forall i | 0 <= i < |ks| :: ks[i] in ks;
  }

  lemma RestServes(fields: seq<Field>, prior: PreviousMessage, m: PreviousMessage)
    requires fields != [] && Serves(fields, prior, m)
    ensures Serves(fields[1..], prior, m)
  {
    hide Fresh;
    var rest := fields[1..];
    assert forall i | 0 <= i < |rest| :: rest[i] == fields[i + 1];
  }

  lemma FirstIsBefore(fields: seq<Field>, f: Field)
    requires fields != [] && SortedByName(fields) && DistinctNames(fields) && f in fields[1..]
    ensures Before(fields[0].name, f.name)
  {
    var i :| 0 <= i < |fields| - 1 && fields[1..][i] == f;
    assert fields[i + 1] == f;
    BeforeTotal(fields[0].name, f.name);
  }

  lemma AnyNumberingServes(shape: Shape, previous: Option<PreviousMessage>, m: PreviousMessage)
    requires Assignable(shape, previous) && IsNumbering(shape.fields, OrEmpty(previous), m)
    ensures Serves(SortByName(CarriedAll(shape.fields, OrEmpty(previous))), OrEmpty(previous), m)
  {
    hide SortByName, CarriedAll, NumbersFollow, ReservesLost, WellNumbered, DistinctNames, SortedByName;
    var carried := CarriedAll(shape.fields, OrEmpty(previous));
    SortKeeps(carried);
    SortKeepsElements(carried);
    CarriedKeepsNames(shape.fields, OrEmpty(previous));
    forall c | c in carried ensures c.name in m.fields && (c.number == 0 ==> Fresh(OrEmpty(previous), m, c.name)) {
      var f := CarriedFrom(shape.fields, OrEmpty(previous), c);
      assert m.fields[f.name].sig == f.Sig();
      if Carries(f, OrEmpty(previous)) { CarriedBelow(shape, previous, f); }
    }
  }

  /** A numbering without reserved names exists exactly when the assignment succeeds. */
  lemma AssignedExactly(shape: Shape, previous: Option<PreviousMessage>)
    requires Assignable(shape, previous)
    ensures Assigned(shape, previous).Some? <==>
      exists m :: IsNumbering(shape.fields, OrEmpty(previous), m) && m.fields.Keys !! OrEmpty(previous).reservedNames
  {
    hide IsNumbering, Assignable, SortByName, CarriedAll, NumberFrom, WellNumbered, Taken, Occupied;
    var prior := OrEmpty(previous);
    if Assigned(shape, previous).Some? {
      AssignedIsWellNumbered(shape, previous);
      var m := Compiled(Assigned(shape, previous).value);
      AssignedIsNumbering(shape, previous, m);
      assert WellNumbered(m) ==> m.fields.Keys !! m.reservedNames by { NamesApartWhenWell(m); }
      AssignedKeepsReserved(shape, previous, m);
    }
    if m :| IsNumbering(shape.fields, prior, m) && m.fields.Keys !! prior.reservedNames {
      NumberingSucceeds(shape, previous, m);
    }
  }

  lemma NamesApartWhenWell(m: PreviousMessage)
    ensures WellNumbered(m) ==> m.fields.Keys !! m.reservedNames
  {
  }

  lemma AssignedKeepsReserved(shape: Shape, previous: Option<PreviousMessage>, m: PreviousMessage)
    requires IsNumbering(shape.fields, OrEmpty(previous), m)
    ensures OrEmpty(previous).reservedNames <= m.reservedNames
  {
  }

  lemma NumberingSucceeds(shape: Shape, previous: Option<PreviousMessage>, m: PreviousMessage)
    requires Assignable(shape, previous) && IsNumbering(shape.fields, OrEmpty(previous), m)
    requires m.fields.Keys !! OrEmpty(previous).reservedNames
    ensures Assigned(shape, previous).Some?
  {
    hide Assignable, SortByName, CarriedAll, NumberFrom, Serves, NumbersFollow, ReservesLost, Ladder, Taken, Occupied;
    var prior := OrEmpty(previous);
    var sorted := SortByName(CarriedAll(shape.fields, prior));
    AnyNumberingServes(shape, previous, m);
    FloorIsHighest(shape, previous);
    var next := Floor(shape, previous) + 1;
    forall k: nat | Above(k, Taken(prior)) && k >= 1 ensures k >= next {
      assert Taken(prior) != {} ==> Floor(shape, previous) in Taken(prior);
    }
    NumbersInAreLadder(sorted, prior, m, next);
    EnoughNumbers(sorted, next, NumbersIn(sorted, m));
  }
}
