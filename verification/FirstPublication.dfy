/** When a first publication succeeds, decided from the endpoints alone. */
module FirstPublication {
  import opened Prelude
  import opened Names
  import opened Numbering
  import opened Messages
  import opened EndpointFacts
  import opened Symbols
  import opened Buildable
  import opened Generator
  import opened GeneratorFacts

  /** The endpoints can be built, none for want of another, and every message has room for its fields. */
  predicate Generable(id: Identity, endpoints: seq<Endpoint>) {
    && Pascal(id.name).Some? && OverGrpc(endpoints) != []
    && (forall e | e in OverGrpc(endpoints) :: !e.handWritten && Publishable(e) && Roomy(e))
    && NamesApartIn(OverGrpc(endpoints))
  }

  /** Without a previous contract all messages are numbered exactly when no Struct has too many keys. */
  lemma NumberedExactly(endpoints: seq<Endpoint>)
    requires UniqueIds(endpoints) && Build(endpoints).Ok? && forall e | e in endpoints :: !EmptyResponse(e)
    ensures Numberable(Build(endpoints).value.table.messages, None) <==> forall e | e in endpoints :: Roomy(e)
  {
    hide Build, ProgressOk, Assigned, EndpointObeys, DistinctNames, FieldNames, Unnumbered;
    BuildSound(endpoints);
    TableObeysExactly(Capacity, endpoints);
    var t := Build(endpoints).value.table;
    forall n | n in t.messages
      ensures Assigned(t.messages[n], None).Some? <==> Obeys(Capacity, FieldNames(t.messages[n].fields))
    {
      assert PreviousOk(None);
      TableAssignable(Build(endpoints).value, Ids(endpoints), None, n);
      NameCount(t.messages[n].fields);
      FirstNumberedExactly(t.messages[n]);
    }
    assert forall n | n in t.messages :: PreviousMessageOf(None, n) == None;
  }

  /** Generation from scratch, for interfaces without empty responses. */
  lemma GeneratedExactly(id: Identity, endpoints: seq<Endpoint>)
    requires UniqueIds(endpoints) && NoEmptyResponse(endpoints)
    ensures Generate(id, endpoints, None).Done? <==> Generable(id, endpoints)
  {
    hide Build, Numberable, Publishable, NamesApartIn, Roomy, EmptyResponse, Pascal, IsBreaking;
    var grpc := OverGrpc(endpoints);
    OverGrpcKeeps(endpoints);
    BuildsExactly(grpc);
    if Build(grpc).Ok? { NumberedExactly(grpc); }
    assert grpc != [] ==> grpc[0] in grpc;
  }

  /** A first publication yields a contract exactly when its endpoints can be built and compile. */
  lemma FirstPublicationExactly(id: Identity, endpoints: seq<Endpoint>)
    requires UniqueIds(endpoints)
    ensures Prepare(id, endpoints, None).Some? <==> Generable(id, endpoints) && Compilable(id, endpoints)
  {
    hide Generate, ProtocAccepts, Generable, Compilable, NoEmptyResponse;
    assert PreviousOk(None);
    if Generate(id, endpoints, None).Done? { CompilesExactly(id, endpoints, None); }
    if Compilable(id, endpoints) {
      CompilableHasNoEmptyResponse(id, endpoints);
      GeneratedExactly(id, endpoints);
    }
  }
}
