/** Publishing an interface again changes nothing. */
module Regeneration {
  import opened Prelude
  import opened Names
  import opened Numbering
  import opened Messages
  import opened EndpointFacts
  import opened Generator
  import opened GeneratorFacts
  import opened Evolution

  /** A contract as this generator leaves it. */
  ghost predicate Sound(id: Identity, c: Contract) {
    && WellFormed(c.descriptor) && Coherent(c.descriptor)
    && c.version.major >= 1 && c.version.patch == 0
    && c.descriptor.package == Versioned(id.segment, c.version.major) && c.descriptor.service == id.Service()
  }

  /** The endpoints are ones that the generator handles, and their table is p. */
  ghost predicate Generates(id: Identity, endpoints: seq<Endpoint>, p: Progress) {
    && UniqueIds(endpoints) && Compilable(id, endpoints) && Pascal(id.name).Some?
    && OverGrpc(endpoints) != [] && (forall e | e in OverGrpc(endpoints) :: !e.handWritten)
    && Build(OverGrpc(endpoints)) == Ok(p)
  }

  predicate SameMethods(a: seq<string>, b: seq<string>) {
    (forall m | m in a :: m in b) && (forall m | m in b :: m in a)
  }

  lemma MatchedAgain(p: Progress, ids: set<string>, c: Contract, n: string)
    requires ProgressOk(p, ids) && Tidy(p.table) && CompiledFrom(p.table, c.descriptor) && WellFormed(c.descriptor)
    requires n in p.table.messages
    ensures PreviousMessageOf(Some(c), n) == Some(c.descriptor.messages[n])
    ensures Assigned(p.table.messages[n], Some(c.descriptor.messages[n])).Some?
    ensures var a := Assigned(p.table.messages[n], Some(c.descriptor.messages[n])).value;
      DistinctNames(a.fields) && Compiled(a) == c.descriptor.messages[n]
    ensures !Breaks(p.table.messages[n], Some(c.descriptor.messages[n]))
  {
    hide ProgressOk, Assigned, WellNumbered, DistinctNames, Breaks, Compiled;
    TableAssignable(p, ids, Some(c), n);
    assert DistinctNames(p.table.messages[n].fields);
    assert NumberedFrom(p.table.messages[n], c.descriptor.messages[n]);
    AssignedAgain(p.table.messages[n], c.descriptor.messages[n]);
  }

  lemma NotBreakingAgain(id: Identity, p: Progress, ids: set<string>, c: Contract)
    requires ProgressOk(p, ids) && Tidy(p.table) && CompiledFrom(p.table, c.descriptor) && Sound(id, c)
    requires SameMethods(p.methods, c.descriptor.methods)
    ensures Numberable(p.table.messages, Some(c)) && !IsBreaking(id, p, Some(c))
  {
    hide ProgressOk, Tidy, Assigned, Breaks, Compiled, CompiledFrom, WellFormed, Coherent;
    forall n | n in p.table.messages
      ensures Assigned(p.table.messages[n], PreviousMessageOf(Some(c), n)).Some?
      ensures !Breaks(p.table.messages[n], PreviousMessageOf(Some(c), n))
    {
      MatchedAgain(p, ids, c, n);
    }
    forall rpc | rpc in p.methods ensures MethodCoherent(c.descriptor, rpc) {
      MethodRoots(c.descriptor, rpc);
    }
  }

  /** The contract that publishing the same messages again prepares. */
  function Again(c: Contract, methods: seq<string>): Contract {
    Contract(
      if methods == c.descriptor.methods then c.version else Version(c.version.major, c.version.minor + 1, 0),
      c.descriptor.(methods := methods))
  }

  /**
   Endpoints with the same messages as the previous contract keep all numbers,
   reserved sets and the package; the version moves only if the methods moved.
   */
  lemma SameMessagesAgain(id: Identity, endpoints: seq<Endpoint>, p: Progress, c: Contract)
    requires Generates(id, endpoints, p) && CompiledFrom(p.table, c.descriptor) && Sound(id, c)
    requires SameMethods(p.methods, c.descriptor.methods)
    ensures Generate(id, endpoints, Some(c)).Done? && !Generate(id, endpoints, Some(c)).generated.breaking
    ensures Prepare(id, endpoints, Some(c)) == Some(Again(c, p.methods))
  {
    hide ProgressOk, Tidy, Assigned, Compiled, CompiledFrom, Coherent, IsBreaking, ProtocAccepts, Numberable, MessageAccepted, Build;
    OverGrpcKeeps(endpoints);
    BuildSound(OverGrpc(endpoints));
    var ids := Ids(OverGrpc(endpoints));
    NotBreakingAgain(id, p, ids, c);
    var g := Generate(id, endpoints, Some(c)).generated;
    CompilesExactly(id, endpoints, Some(c));
    CompiledAgain(p, ids, c, g);
  }

  lemma CompiledAgain(p: Progress, ids: set<string>, c: Contract, g: Generated)
    requires ProgressOk(p, ids) && Tidy(p.table) && CompiledFrom(p.table, c.descriptor) && WellFormed(c.descriptor)
    requires Numberable(p.table.messages, Some(c)) && g.shapes == Numbered(p.table.messages, Some(c)) && ProtocAccepts(g)
    ensures CompiledAll(g.shapes) == c.descriptor.messages
  {
    hide ProgressOk, Tidy, Assigned, Compiled, MessageAccepted, WellFormed;
    forall n | n in p.table.messages ensures CompiledAll(g.shapes)[n] == c.descriptor.messages[n] {
      MatchedAgain(p, ids, c, n);
    }
  }

  /** A generated contract, given back as the previous one with the same endpoints, is prepared again unchanged. */
  lemma RegenerationIsFixedPoint(id: Identity, endpoints: seq<Endpoint>, previous: Option<Contract>)
    requires UniqueIds(endpoints) && (previous.Some? ==> Sound(id, previous.value))
    requires Prepare(id, endpoints, previous).Some?
    ensures var c := Prepare(id, endpoints, previous).value;
      && Sound(id, c)
      && Generate(id, endpoints, Some(c)).Done? && !Generate(id, endpoints, Some(c)).generated.breaking
      && Prepare(id, endpoints, Some(c)) == Some(c)
  {
    hide Coherent, WellFormed, Build, ProgressOk, Tidy, CompiledFrom, IsBreaking, NumberedAfter;
    var c := Prepare(id, endpoints, previous).value;
    assert PreviousOk(previous);
    var p := PreparedFacts(id, endpoints, previous);
    PreparedIsSound(id, p, previous, c);
    PreparedGenerates(id, endpoints, previous, p);
    SameMessagesAgain(id, endpoints, p, c);
  }

  lemma PreparedGenerates(id: Identity, endpoints: seq<Endpoint>, previous: Option<Contract>, p: Progress)
    requires UniqueIds(endpoints) && PreviousOk(previous) && Prepare(id, endpoints, previous).Some?
    requires Build(OverGrpc(endpoints)) == Ok(p)
    ensures Generates(id, endpoints, p)
  {
    hide Build, IsBreaking, Numberable, NextVersion, ProtocAccepts, Compilable;
    CompilesExactly(id, endpoints, previous);
  }

  lemma PreparedIsSound(id: Identity, p: Progress, previous: Option<Contract>, c: Contract)
    requires PreparedFrom(id, p, previous, c) && (previous.Some? ==> Sound(id, previous.value))
    ensures Sound(id, c)
  {
    hide Coherent, WellFormed, CompiledFrom, IsBreaking, Follows;
  }
}
