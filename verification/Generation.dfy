/** The generation procedure, step by step, against its specification. */
module Generation {
  import opened Prelude
  import opened Names
  import opened Numbering
  import opened Messages
  import opened MessageFacts
  import opened EndpointFacts
  import opened Generator
  import GeneratorFacts
  import opened MessageTable

  predicate AllUnnumbered(t: Table) {
    forall n | n in t.messages :: Unnumbered(t.messages[n].fields)
  }

  /** Numbers every message of the dictionary in place; None when one of them cannot be numbered. */
  method NumberMessages(builder: Builder, previous: Option<Contract>) returns (breaking: Option<bool>)
    requires builder.Valid() && AllUnnumbered(builder.View())
    modifies builder.Shapes()
    ensures breaking.Some? <==> Numberable(old(builder.View()).messages, previous)
    ensures breaking.Some? ==>
      && builder.View().messages == Numbered(old(builder.View()).messages, previous)
      && (breaking.value <==> SomeMessageBreaks(old(builder.View()).messages, previous))
  {
    hide Assigned, Breaks, MessageShape.Value, PreviousMessageOf;
    ghost var before := builder.View().messages;
    var pending := builder.messages.Keys;
    var broken := false;
    while pending != {}
      invariant pending <= builder.messages.Keys && builder.messages.Keys == before.Keys
      invariant forall n | n in pending :: builder.messages[n].Value() == before[n]
      invariant forall n | n in before && n !in pending ::
        Assigned(before[n], PreviousMessageOf(previous, n)).Some?
        && builder.messages[n].Value() == Assigned(before[n], PreviousMessageOf(previous, n)).value
      invariant broken <==> exists n | n in before && n !in pending :: Breaks(before[n], PreviousMessageOf(previous, n))
      decreases pending
    {
      var n :| n in pending;
      var shape := builder.messages[n];
      ValueFields(shape);
      label Step:
      var broke := shape.AssignNumbers(PreviousMessageOf(previous, n));
      if broke.None? {
        return None;
      }
      forall m | m in builder.messages && m != n ensures builder.messages[m].Value() == old@Step(builder.messages[m].Value()) {
        assert builder.messages[m] != shape;
      }
      broken := broken || broke.value;
      pending := pending - {n};
    }
    assert builder.View().messages == Numbered(before, previous);
    breaking := Some(broken);
  }

  lemma ValueFields(shape: MessageShape)
    ensures shape.Value().fields == shape.fields
  {
  }

  lemma {:induction false} BuiltUnnumbered(endpoints: seq<Endpoint>)
    requires UniqueIds(endpoints) && Build(endpoints).Ok?
    ensures AllUnnumbered(Build(endpoints).value.table)
  {
    hide Build, Rooted, Tidy, Instrumented, RootsOk, OwnedBy, HasExecution, Closed, EntryOk, Unnumbered, Distinct;
    BuildSound(endpoints);
    var t := Build(endpoints).value.table;
    forall n | n in t.messages ensures Unnumbered(t.messages[n].fields) {
      EntryUnnumbered(n, t.origins[n], t.messages[n]);
    }
  }

  lemma EntryUnnumbered(n: string, o: Origin, shape: Shape)
    requires EntryOk(n, o, shape)
    ensures Unnumbered(shape.fields)
  {
  }

  method SelectOverGrpc(endpoints: seq<Endpoint>) returns (selected: seq<Endpoint>)
    ensures selected == OverGrpc(endpoints)
  {
    selected := [];
    var i := 0;
    assert endpoints[0..] == endpoints;
    while i < |endpoints|
      invariant 0 <= i <= |endpoints|
      invariant OverGrpc(endpoints) == selected + OverGrpc(endpoints[i..])
    {
      assert endpoints[i..][0] == endpoints[i] && endpoints[i..][1..] == endpoints[i+1..];
      if endpoints[i].overGrpc {
        selected := selected + [endpoints[i]];
      }
      i := i + 1;
    }
    assert endpoints[i..] == [];
  }

  /** From endpoints and the previous contract to the generated contract. */
  method GenerateContract(id: Identity, endpoints: seq<Endpoint>, previous: Option<Contract>) returns (outcome: Outcome)
    requires UniqueIds(endpoints)
    ensures outcome == Generate(id, endpoints, previous)
  {
    hide Numbered, Numberable, SomeMessageBreaks, LacksExecution, LosesMethod, LeavesNamespace, NextVersion, AllUnnumbered, AddEndpoint;
    var grpc := SelectOverGrpc(endpoints);
    if grpc == [] || exists e | e in grpc :: e.handWritten {
      return NotGenerated;
    }
    if Pascal(id.name).None? {
      return Rejected(GenerationError);
    }
    var builder := new Builder();
    var declared := builder.DeclareEndpoints(grpc);
    assert Build(grpc) == AddEndpoints(Progress(EMPTY_TABLE, [], None), grpc);
    if declared.Err? {
      return Rejected(declared.error);
    }
    var methods := declared.value;
    GeneratorFacts.OverGrpcKeeps(endpoints);
    BuiltUnnumbered(grpc);
    var lacksExecution := LacksExecution(methods, previous);
    ghost var table := builder.View();
    var numbered := NumberMessages(builder, previous);
    if numbered.None? {
      return Rejected(GenerationError);
    }
    var breaking := lacksExecution || numbered.value || LosesMethod(methods, previous) || LeavesNamespace(id, previous);
    var version := NextVersion(previous, breaking);
    outcome := Done(Generated(version, Versioned(id.segment, version.major), id.Service(), methods,
      map n | n in builder.messages :: builder.messages[n].Value(), breaking));
  }
}
