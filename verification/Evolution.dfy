/** How one publication relates to the contract before it. */
module Evolution {
  import opened Prelude
  import opened Graphs
  import opened Numbering
  import opened NumberingFacts
  import opened Messages
  import opened MessageFacts
  import opened EndpointFacts
  import opened Generator
  import opened GeneratorFacts

  /** The message that a table entry becomes when it is numbered after `previous`. */
  ghost predicate NumberedAfter(t: Table, previous: Option<Contract>, d: Descriptor, n: string)
    requires n in t.messages
  {
    var before := PreviousMessageOf(previous, n);
    && Assignable(t.messages[n], before) && Assigned(t.messages[n], before).Some?
    && DistinctNames(Assigned(t.messages[n], before).value.fields)
    && n in d.messages && d.messages[n] == Compiled(Assigned(t.messages[n], before).value)
  }

  /** The descriptor d results from the table p after the previous contract. */
  ghost predicate Follows(p: Progress, previous: Option<Contract>, d: Descriptor) {
    && d.methods == p.methods
    && d.messages.Keys == p.table.messages.Keys
    && forall n | n in p.table.messages :: NumberedAfter(p.table, previous, d, n)
  }

  /** Everything that a successful preparation tells. */
  ghost predicate PreparedFrom(id: Identity, p: Progress, previous: Option<Contract>, c: Contract) {
    var version := NextVersion(previous, IsBreaking(id, p, previous));
    && Follows(p, previous, c.descriptor)
    && CompiledFrom(p.table, c.descriptor)
    && WellFormed(c.descriptor) && Coherent(c.descriptor)
    && c.descriptor.package == Versioned(id.segment, version.major) && c.descriptor.service == id.Service()
    && c.version == if previous.Some? && previous.value.descriptor == c.descriptor then previous.value.version else version
  }

  lemma PreparedFacts(id: Identity, endpoints: seq<Endpoint>, previous: Option<Contract>) returns (p: Progress)
    requires Prepare(id, endpoints, previous).Some? && UniqueIds(endpoints) && PreviousOk(previous)
    ensures Build(OverGrpc(endpoints)) == Ok(p) && ProgressOk(p, Ids(OverGrpc(endpoints))) && Tidy(p.table)
    ensures PreparedFrom(id, p, previous, Prepare(id, endpoints, previous).value)
  {
    hide ProgressOk, Assigned, Tidy, Build, IsBreaking, NextVersion, ProtocAccepts, PreviousOk, Coherent, WellFormed,
      WellNumbered, Compiled, DistinctNames, Assignable, NoEmptyResponse, Compilable;
    var c := Prepare(id, endpoints, previous).value;
    var g := Generate(id, endpoints, previous).generated;
    p := TableOf(id, endpoints, previous);
    CompilesExactly(id, endpoints, previous);
    CompilableHasNoEmptyResponse(id, endpoints);
    var ids := Ids(OverGrpc(endpoints));
    forall n | n in p.table.messages
      ensures NumberedAfter(p.table, previous, c.descriptor, n) && NumberedFrom(p.table.messages[n], c.descriptor.messages[n])
    {
      EntryNumbered(p, ids, previous, g, c.descriptor, n);
    }
    assert c.descriptor.messages.Keys == p.table.messages.Keys;
    CompiledIsCoherent(p, ids, c.descriptor);
  }

  lemma EntryNumbered(p: Progress, ids: set<string>, previous: Option<Contract>, g: Generated, d: Descriptor, n: string)
    requires ProgressOk(p, ids) && Tidy(p.table) && PreviousOk(previous) && n in p.table.messages
    requires Numberable(p.table.messages, previous) && g.shapes == Numbered(p.table.messages, previous)
    requires Compile(g) == Some(d)
    ensures NumberedAfter(p.table, previous, d, n) && NumberedFrom(p.table.messages[n], d.messages[n])
  {
    hide ProgressOk, Assigned, WellNumbered, Compiled, Assignable, DistinctNames;
    assert DistinctNames(p.table.messages[n].fields);
    TableAssignable(p, ids, previous, n);
    MessageNumbered(p.table.messages[n], PreviousMessageOf(previous, n));
  }

  // ---------------------------------------------------------------- one step

  /** A message published before and now never rebinds a number or revives a name. */
  lemma StepRetains(p: Progress, previous: Contract, d: Descriptor, n: string)
    requires Follows(p, Some(previous), d) && n in d.messages && n in previous.descriptor.messages
    ensures Retains(previous.descriptor.messages[n], d.messages[n])
  {
    hide Assigned, Assignable, Compiled, DistinctNames, Retains;
    assert NumberedAfter(p.table, Some(previous), d, n);
    AssignedRetains(p.table.messages[n], Some(previous.descriptor.messages[n]));
  }

  /** Every message of a prepared contract is the one numbering of its fields after the message it follows. */
  lemma StepNumbers(p: Progress, previous: Option<Contract>, d: Descriptor, n: string)
    requires Follows(p, previous, d) && n in p.table.messages
    ensures n in d.messages && IsNumbering(p.table.messages[n].fields, OrEmpty(PreviousMessageOf(previous, n)), d.messages[n])
  {
    hide Assigned, Assignable, Compiled, DistinctNames, IsNumbering;
    assert NumberedAfter(p.table, previous, d, n);
    AssignedIsNumbering(p.table.messages[n], PreviousMessageOf(previous, n), d.messages[n]);
  }

  /** The later schema only adds to the earlier one. */
  ghost predicate DescriptorExtends(a: Descriptor, b: Descriptor) {
    && a.package == b.package && a.service == b.service
    && (forall rpc | rpc in a.methods :: rpc in b.methods)
    && forall n | n in a.messages :: n in b.messages && MessageExtends(a.messages[n], b.messages[n])
  }

  lemma ExtendsTransitive(a: Descriptor, b: Descriptor, c: Descriptor)
    requires DescriptorExtends(a, b) && DescriptorExtends(b, c)
    ensures DescriptorExtends(a, c)
  {
    forall n | n in a.messages ensures n in c.messages && MessageExtends(a.messages[n], c.messages[n]) {
      assert MessageExtends(b.messages[n], c.messages[n]);
      forall f | f in a.messages[n].fields ensures Keeps(a.messages[n], c.messages[n], f) {
        assert Keeps(a.messages[n], b.messages[n], f) && Keeps(b.messages[n], c.messages[n], f);
      }
    }
  }

  /** Wherever both descriptors have the message, nothing of the earlier one was lost. */
  ghost predicate FieldsKept(a: Descriptor, b: Descriptor) {
    forall n, f | n in a.messages && n in b.messages && f in a.messages[n].fields :: Keeps(a.messages[n], b.messages[n], f)
  }

  /** A message reachable from one that survived has survived too. */
  lemma {:induction false} ReachableSurvives(a: Descriptor, b: Descriptor, root: string, n: string, k: nat)
    requires Coherent(a) && Coherent(b) && FieldsKept(a, b)
    requires root in b.messages && InSteps(Refers(a), root, n, k)
    ensures n in b.messages
    decreases k
  {
    hide UnderMethod, MethodCoherent, Distinct;
    if k > 0 {
      var c :| c in Refers(a)[root] && InSteps(Refers(a), c, n, k - 1);
      var f :| f in a.messages[root].fields && a.messages[root].fields[f].sig.0 == c;
      assert MessageCoherent(a, c) && MessageCoherent(b, root);
      assert Keeps(a.messages[root], b.messages[root], f);
      ReachableSurvives(a, b, c, n, k - 1);
    }
  }

  lemma SurvivesFrom(a: Descriptor, b: Descriptor, root: string, n: string)
    requires Coherent(a) && Coherent(b) && FieldsKept(a, b)
    requires root in b.messages && Reaches(Refers(a), root, n)
    ensures n in b.messages
  {
    hide Coherent, FieldsKept, Refers, InSteps;
    var k: nat :| InSteps(Refers(a), root, n, k);
    ReachableSurvives(a, b, root, n, k);
  }

  lemma MethodReaching(d: Descriptor, n: string) returns (rpc: string)
    requires Coherent(d) && n in d.messages
    ensures rpc in d.methods && UnderMethod(d, rpc, n)
  {
    hide UnderMethod, MethodCoherent, Resolves, EnumName, ScalarName, Distinct;
    assert MessageCoherent(d, n);
    rpc :| rpc in d.methods && UnderMethod(d, rpc, n);
  }

  lemma MethodRoots(d: Descriptor, rpc: string)
    requires Coherent(d) && rpc in d.methods
    ensures MethodCoherent(d, rpc)
  {
    hide MessageCoherent, Distinct;
  }

  /** When every method survives and nothing is lost, no message vanishes. */
  lemma NothingVanishes(a: Descriptor, b: Descriptor, n: string)
    requires Coherent(a) && Coherent(b) && FieldsKept(a, b)
    requires forall rpc | rpc in a.methods :: rpc in b.methods
    requires n in a.messages
    ensures n in b.messages
  {
    hide Coherent, FieldsKept, Reaches, Refers;
    var rpc := MethodReaching(a, n);
    MethodRoots(b, rpc);
    if Reaches(Refers(a), RequestName(rpc), n) {
      SurvivesFrom(a, b, RequestName(rpc), n);
    } else {
      SurvivesFrom(a, b, ResponseName(rpc), n);
    }
  }

  /**
   Compatible with the previous contract: same namespace, no method, message or
   field lost, no existing request message grown, no response newly instrumented.
   */
  ghost predicate Compatible(id: Identity, p: Progress, previous: Contract, d: Descriptor) {
    && !LeavesNamespace(id, Some(previous)) && !LacksExecution(p.methods, Some(previous))
    && (forall rpc | rpc in previous.descriptor.methods :: rpc in d.methods)
    && forall n | n in previous.descriptor.messages ::
        && n in d.messages && n in p.table.messages
        && Unbroken(p.table.messages[n].direction, Some(previous.descriptor.messages[n]), d.messages[n])
  }

  lemma MessageStepExactly(p: Progress, previous: Option<Contract>, d: Descriptor, n: string)
    requires Follows(p, previous, d) && n in p.table.messages
    ensures n in d.messages
    ensures !Breaks(p.table.messages[n], PreviousMessageOf(previous, n)) <==>
      Unbroken(p.table.messages[n].direction, PreviousMessageOf(previous, n), d.messages[n])
  {
    hide Assigned, Assignable, Compiled, DistinctNames, Unbroken, Breaks;
    assert NumberedAfter(p.table, previous, d, n);
    BreaksExactly(p.table.messages[n], PreviousMessageOf(previous, n));
  }

  /** The flag `breaking` is raised exactly when the step is not compatible. */
  lemma BreakingExactly(id: Identity, p: Progress, previous: Contract, d: Descriptor)
    requires Follows(p, Some(previous), d) && Coherent(d) && Coherent(previous.descriptor)
    ensures IsBreaking(id, p, Some(previous)) <==> !Compatible(id, p, previous, d)
  {
    hide Coherent, MessageCoherent, NumberedAfter, Unbroken, Breaks, LeavesNamespace, LacksExecution;
    forall n | n in p.table.messages
      ensures !Breaks(p.table.messages[n], PreviousMessageOf(Some(previous), n)) <==>
        Unbroken(p.table.messages[n].direction, PreviousMessageOf(Some(previous), n), d.messages[n])
    {
      MessageStepExactly(p, Some(previous), d, n);
    }
    if !IsBreaking(id, p, Some(previous)) {
      KeptWhenUnbroken(p, previous, d);
      forall n | n in previous.descriptor.messages ensures n in d.messages {
        NothingVanishes(previous.descriptor, d, n);
      }
    }
    if Compatible(id, p, previous, d) {
      CompatibleDoesNotBreak(id, p, previous, d);
    }
  }

  lemma KeptWhenUnbroken(p: Progress, previous: Contract, d: Descriptor)
    requires Follows(p, Some(previous), d) && !SomeMessageBreaks(p.table.messages, Some(previous))
    ensures FieldsKept(previous.descriptor, d)
  {
    hide NumberedAfter, Breaks;
    forall n, f | n in previous.descriptor.messages && n in d.messages && f in previous.descriptor.messages[n].fields
      ensures Keeps(previous.descriptor.messages[n], d.messages[n], f)
    {
      MessageStepExactly(p, Some(previous), d, n);
      var before := PreviousMessageOf(Some(previous), n);
      assert !Breaks(p.table.messages[n], before) && before == Some(previous.descriptor.messages[n]);
      assert OrEmpty(before) == previous.descriptor.messages[n];
      assert Unbroken(p.table.messages[n].direction, before, d.messages[n]);
      assert f in OrEmpty(before).fields;
    }
  }

  lemma CompatibleDoesNotBreak(id: Identity, p: Progress, previous: Contract, d: Descriptor)
    requires Follows(p, Some(previous), d) && Coherent(d) && Coherent(previous.descriptor)
    requires Compatible(id, p, previous, d)
    ensures !IsBreaking(id, p, Some(previous))
  {
    hide MessageCoherent, NumberedAfter, Breaks, LeavesNamespace, LacksExecution;
    forall n | n in p.table.messages ensures !Breaks(p.table.messages[n], PreviousMessageOf(Some(previous), n)) {
      MessageStepExactly(p, Some(previous), d, n);
    }
  }

  /** A step that is not breaking keeps the package and is a pure extension. */
  lemma UnbrokenIsExtension(id: Identity, p: Progress, previous: Contract, c: Contract)
    requires PreparedFrom(id, p, Some(previous), c) && Coherent(previous.descriptor)
    requires previous.version.major >= 1 && !IsBreaking(id, p, Some(previous))
    ensures DescriptorExtends(previous.descriptor, c.descriptor)
    ensures Compatible(id, p, previous, c.descriptor)
  {
    hide Coherent, WellFormed, CompiledFrom, Unbroken, MessageExtends, NumberedAfter, FieldsKept, SomeMessageBreaks;
    BreakingExactly(id, p, previous, c.descriptor);
    forall n | n in previous.descriptor.messages
      ensures n in c.descriptor.messages && MessageExtends(previous.descriptor.messages[n], c.descriptor.messages[n])
    {
      UnbrokenMessage(p, previous, c.descriptor, n);
    }
  }

  lemma UnbrokenMessage(p: Progress, previous: Contract, d: Descriptor, n: string)
    requires Follows(p, Some(previous), d) && !SomeMessageBreaks(p.table.messages, Some(previous))
    requires n in previous.descriptor.messages && n in p.table.messages
    ensures n in d.messages && MessageExtends(previous.descriptor.messages[n], d.messages[n])
  {
    hide Assigned, Assignable, Compiled, DistinctNames, Breaks, MessageExtends;
    assert NumberedAfter(p.table, Some(previous), d, n);
    var before := PreviousMessageOf(Some(previous), n);
    assert !Breaks(p.table.messages[n], before);
    UnbrokenExtends(p.table.messages[n], before);
  }

  /** The first edge, on a way between two messages, that leaves the messages of a. */
  lemma {:induction false} FirstNewEdge(a: Descriptor, b: Descriptor, root: string, n: string, k: nat)
    returns (owner: string, f: string)
    requires root in a.messages && n !in a.messages && InSteps(Refers(b), root, n, k)
    ensures owner in a.messages && owner in b.messages && f in b.messages[owner].fields
    ensures b.messages[owner].fields[f].sig.0 !in a.messages
    ensures Reaches(Refers(b), b.messages[owner].fields[f].sig.0, n)
    decreases k
  {
    var c :| c in Refers(b)[root] && InSteps(Refers(b), c, n, k - 1);
    if c in a.messages {
      owner, f := FirstNewEdge(a, b, c, n, k - 1);
    } else {
      owner := root;
      f :| f in b.messages[root].fields && b.messages[root].fields[f].sig.0 == c;
    }
  }

  /** A message is there because of a method that the earlier schema did not have. */
  ghost predicate FromNewMethod(a: Descriptor, b: Descriptor, n: string) {
    exists rpc | rpc in b.methods && rpc !in a.methods :: UnderMethod(b, rpc, n)
  }

  /** A message is there because a field was added to an existing response message. */
  ghost predicate FromNewField(p: Progress, a: Descriptor, b: Descriptor, n: string) {
    exists owner, f | owner in a.messages && owner in b.messages && f in b.messages[owner].fields ::
      && f !in a.messages[owner].fields
      && owner in p.table.messages && p.table.messages[owner].direction == Response
      && Reaches(Refers(b), b.messages[owner].fields[f].sig.0, n)
  }

  /** In a compatible step every added message is explained by an added method or an added response field. */
  lemma AdditionsExplained(id: Identity, p: Progress, previous: Contract, d: Descriptor, n: string)
    requires Follows(p, Some(previous), d) && Coherent(d) && Coherent(previous.descriptor)
    requires Compatible(id, p, previous, d) && n in d.messages && n !in previous.descriptor.messages
    ensures FromNewMethod(previous.descriptor, d, n) || FromNewField(p, previous.descriptor, d, n)
  {
    hide Coherent, Refers, Reaches, Unbroken, LeavesNamespace, LacksExecution, Follows, Compatible;
    var a := previous.descriptor;
    var rpc := MethodReaching(d, n);
    if rpc in a.methods {
      MethodRoots(a, rpc);
      var root := if Reaches(Refers(d), RequestName(rpc), n) then RequestName(rpc) else ResponseName(rpc);
      var owner, f := NewEdge(a, d, root, n);
      NewEdgeIsAdded(id, p, previous, d, owner, f);
    }
  }

  lemma NewEdge(a: Descriptor, b: Descriptor, root: string, n: string) returns (owner: string, f: string)
    requires root in a.messages && n !in a.messages && Reaches(Refers(b), root, n)
    ensures owner in a.messages && owner in b.messages && f in b.messages[owner].fields
    ensures b.messages[owner].fields[f].sig.0 !in a.messages && b.messages[owner].fields[f].sig.0 in b.messages
    ensures Reaches(Refers(b), b.messages[owner].fields[f].sig.0, n)
  {
    var k: nat :| InSteps(Refers(b), root, n, k);
    owner, f := FirstNewEdge(a, b, root, n, k);
  }

  lemma NewEdgeIsAdded(id: Identity, p: Progress, previous: Contract, d: Descriptor, owner: string, f: string)
    requires Follows(p, Some(previous), d) && Coherent(d) && Coherent(previous.descriptor) && Compatible(id, p, previous, d)
    requires owner in previous.descriptor.messages && owner in d.messages && f in d.messages[owner].fields
    requires d.messages[owner].fields[f].sig.0 !in previous.descriptor.messages
    requires d.messages[owner].fields[f].sig.0 in d.messages
    ensures f !in previous.descriptor.messages[owner].fields
    ensures owner in p.table.messages && p.table.messages[owner].direction == Response
  {
    hide UnderMethod, MethodCoherent, Distinct, LeavesNamespace, LacksExecution, NumberedAfter;
    var a := previous.descriptor;
    var c := d.messages[owner].fields[f].sig.0;
    assert MessageCoherent(d, c) && MessageCoherent(a, owner);
    assert Unbroken(p.table.messages[owner].direction, Some(a.messages[owner]), d.messages[owner]);
    assert OrEmpty(Some(a.messages[owner])) == a.messages[owner];
    assert forall g | g in a.messages[owner].fields :: Keeps(a.messages[owner], d.messages[owner], g);
  }
}
