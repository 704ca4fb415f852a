/** What the loop over endpoints keeps, and what it leaves at the end. */
module EndpointFacts {
  import opened Prelude
  import opened Names
  import opened Graphs
  import opened Numbering
  import opened Messages
  import opened MessageFacts

  /** A message is reachable from the request or the response of the method. */
  ghost predicate Under(t: Table, rpc: string, name: string) {
    Reaches(Mentions(t), RequestName(rpc), name) || Reaches(Mentions(t), ResponseName(rpc), name)
  }

  ghost predicate Rooted(t: Table, methods: seq<string>) {
    forall n | n in t.messages :: exists rpc | rpc in methods :: Under(t, rpc, n)
  }

  ghost predicate Tidy(t: Table) {
    forall n | n in t.messages :: DistinctNames(t.messages[n].fields)
  }

  ghost predicate SoundTable(t: Table) {
    TableOk(t) && Closed(t)
  }

  lemma UnderGrows(a: Table, b: Table, rpc: string, name: string)
    requires Grows(a, b) && Under(a, rpc, name)
    ensures Under(b, rpc, name)
  {
    GrowsMentions(a, b);
    if Reaches(Mentions(a), RequestName(rpc), name) {
      ReachesMonotone(Mentions(a), Mentions(b), RequestName(rpc), name);
    } else {
      ReachesMonotone(Mentions(a), Mentions(b), ResponseName(rpc), name);
    }
  }

  /** The roots of a method are there, with their directions, as messages of the endpoint. */
  ghost predicate RootsOk(t: Table, rpc: string) {
    && RequestName(rpc) in t.messages && t.messages[RequestName(rpc)].direction == Request
    && ResponseName(rpc) in t.messages && t.messages[ResponseName(rpc)].direction == Response
    && t.origins.Keys == t.messages.Keys && t.origins[ResponseName(rpc)].Path?
  }

  ghost predicate OwnedBy(t: Table, ids: set<string>) {
    forall n | n in t.origins && t.origins[n].Path? :: t.origins[n].endpoint in ids
  }

  ghost predicate HasExecution(t: Table, name: string) {
    name in t.messages && exists f | f in t.messages[name].fields :: f.name == "execution"
  }

  /** While no name clashes, every response carries the execution metadata. */
  ghost predicate Instrumented(p: Progress) {
    Tidy(p.table) ==> forall rpc | rpc in p.methods :: HasExecution(p.table, ResponseName(rpc))
  }

  ghost predicate ProgressOk(p: Progress, ids: set<string>) {
    && SoundTable(p.table) && OwnedBy(p.table, ids) && Rooted(p.table, p.methods)
    && Distinct(p.methods)
    && (forall rpc | rpc in p.methods :: rpc != "" && IsUpper(rpc[0]) && RootsOk(p.table, rpc))
    && (p.response.Some? ==> exists rpc | rpc in p.methods :: p.response.value == ResponseName(rpc))
    && (p.response.Some? ==> HasExecution(p.table, p.response.value))
    && Instrumented(p)
  }

  // ---------------------------------------------------------------- the four steps of one endpoint

  /** What adding the request message establishes. */
  ghost predicate RequestAdded(t: Table, r: Table, rpc: string, ids: set<string>) {
    && SoundTable(r) && Preserves(t, r, {}) && AddedBelow(t, r, RequestName(rpc), Request) && OwnedBy(r, ids)
    && RequestName(rpc) in r.messages && r.messages[RequestName(rpc)].direction == Request
  }

  /** What adding the response message establishes. */
  ghost predicate ResponseAdded(t: Table, r: Table, rpc: string, ids: set<string>) {
    && SoundTable(r) && Preserves(t, r, {}) && AddedBelow(t, r, ResponseName(rpc), Response) && OwnedBy(r, ids)
    && ResponseName(rpc) !in t.messages && ResponseName(rpc) in r.messages
    && r.origins[ResponseName(rpc)].Path? && r.messages[ResponseName(rpc)].direction == Response
    && "execution" !in NamesOf(r.messages[ResponseName(rpc)].fields)
  }

  /** What adding the execution messages establishes. */
  ghost predicate ExecutionAdded(t: Table, r: Table) {
    && SoundTable(r) && Preserves(t, r, {})
    && (forall n | n in r.messages && n !in t.messages ::
          (n == Execution.Name() || n == ExecutionLog.Name()) && r.origins[n].Platform? && DistinctNames(r.messages[n].fields))
    && Execution.Name() in r.messages && ExecutionLog.Name() in Mentions(r)[Execution.Name()]
    && ExecutionLog.Name() in r.messages
  }

  lemma RequestStep(t: Table, rpc: string, e: Endpoint, ids: set<string>)
    requires SoundTable(t) && OwnedBy(t, ids) && e.id !in ids
    requires rpc != "" && IsUpper(rpc[0]) && AddRequest(t, rpc, e).Ok?
    ensures RequestAdded(t, AddRequest(t, rpc, e).value, rpc, ids + {e.id})
    ensures Untouched(AddRequest(t, rpc, e).value, Path(e.id, Response, []))
  {
    DerivedNames(rpc, "");
    var o := Path(e.id, Request, []);
    AddNestedKeeps(t, RequestName(rpc), e.RequestSchema(), Request, o);
    AddNestedAdds(t, RequestName(rpc), e.RequestSchema(), Request, o);
  }

  lemma ResponseStep(t: Table, rpc: string, e: Endpoint, ids: set<string>)
    requires SoundTable(t) && OwnedBy(t, ids) && e.id in ids && Untouched(t, Path(e.id, Response, []))
    requires rpc != "" && IsUpper(rpc[0]) && AddResponse(t, rpc, e).Ok?
    ensures ResponseAdded(t, AddResponse(t, rpc, e).value, rpc, ids)
  {
    DerivedNames(rpc, "");
    var o := Path(e.id, Response, []);
    AddNestedKeeps(t, ResponseName(rpc), ResponseStruct(e), Response, o);
    AddNestedAdds(t, ResponseName(rpc), ResponseStruct(e), Response, o);
    assert "execution" !in ResponseStruct(e).properties;
  }

  lemma ExecutionStep(t: Table)
    requires SoundTable(t) && EnsureExecution(t).Ok?
    ensures ExecutionAdded(t, EnsureExecution(t).value)
  {
    hide EnsurePlatform, EntryOk, Closed, DistinctNames, PlatformMessage.Fields, PlatformMessage.Name, Mentions;
    PlatformKeeps(t, ExecutionLog, Response);
    PlatformAdds(t, ExecutionLog, Response);
    var d := EnsurePlatform(t, ExecutionLog, Response).value;
    PlatformKeeps(d, Execution, Response);
    PlatformAdds(d, Execution, Response);
    var r := EnsurePlatform(d, Execution, Response).value;
    PlatformContent(r, Execution);
    PlatformContent(r, ExecutionLog);
    PlatformDistinct(r, Execution);
    PlatformDistinct(r, ExecutionLog);
    LogsMentioned(r);
  }

  lemma PlatformContent(t: Table, k: PlatformMessage)
    requires TableOk(t) && k.Name() in t.messages && t.origins[k.Name()] == Platform(k)
    ensures t.messages[k.Name()].fields == k.Fields()
  {
    hide PlatformMessage.Fields, PlatformMessage.Name;
    assert EntryOk(k.Name(), t.origins[k.Name()], t.messages[k.Name()]);
  }

  lemma PlatformDistinct(t: Table, k: PlatformMessage)
    requires k.Name() in t.messages && t.messages[k.Name()].fields == k.Fields()
    ensures DistinctNames(t.messages[k.Name()].fields)
  {
    hide PlatformMessage.Fields, PlatformMessage.Name, DistinctNames;
    PlatformNamesDistinct(k);
  }

  lemma LogsMentioned(t: Table)
    requires Execution.Name() in t.messages && t.messages[Execution.Name()].fields == Execution.Fields()
    ensures ExecutionLog.Name() in Mentions(t)[Execution.Name()]
  {
    assert Execution.Fields()[6].typeName == ExecutionLog.Name();
  }

  lemma AppendStep(t: Table, response: string)
    requires SoundTable(t) && response in t.messages && t.origins[response].Path? && Execution.Name() in t.messages
    ensures var r := Append(t, response, [Plain("execution", Execution.Name())]);
      && SoundTable(r) && Grows(t, r) && Preserves(t, r, {response}) && r.messages.Keys == t.messages.Keys
      && r.origins == t.origins
      && Execution.Name() in Mentions(r)[response] && HasExecution(r, response)
  {
    AppendedOk(t, Append(t, response, [Plain("execution", Execution.Name())]), response, Plain("execution", Execution.Name()));
    var r := Append(t, response, [Plain("execution", Execution.Name())]);
    var added := r.messages[response].fields[|t.messages[response].fields|];
    assert added in r.messages[response].fields && added.name == "execution";
  }

  lemma PreservesGrows(a: Table, b: Table)
    requires Preserves(a, b, {})
    ensures Grows(a, b)
  {
  }

  lemma GrowsTransitive(a: Table, b: Table, c: Table)
    requires Grows(a, b) && Grows(b, c)
    ensures Grows(a, c)
  {
  }

  /** The messages that one endpoint adds. */
  ghost predicate EndpointAdds(t: Table, r: Table, rpc: string, ids: set<string>) {
    && SoundTable(r) && OwnedBy(r, ids) && Preserves(t, r, {})
    && RootsOk(r, rpc) && "execution" !in NamesOf(r.messages[ResponseName(rpc)].fields)
    && ResponseName(rpc) !in t.messages
    && Execution.Name() in r.messages && ExecutionLog.Name() in r.messages
    && ExecutionLog.Name() in Mentions(r)[Execution.Name()]
    && (forall n | n in r.messages && n !in t.messages ::
         DistinctNames(r.messages[n].fields) && (Under(r, rpc, n) || n == Execution.Name() || n == ExecutionLog.Name()))
  }

  lemma MessagesStep(t: Table, rpc: string, e: Endpoint, ids: set<string>)
    requires SoundTable(t) && OwnedBy(t, ids) && e.id !in ids
    requires rpc != "" && IsUpper(rpc[0]) && AddMessages(t, rpc, e).Ok?
    ensures EndpointAdds(t, AddMessages(t, rpc, e).value, rpc, ids + {e.id})
  {
    var t1 := AddRequest(t, rpc, e).value;
    RequestStep(t, rpc, e, ids);
    var t2 := AddResponse(t1, rpc, e).value;
    ResponseStep(t1, rpc, e, ids + {e.id});
    ExecutionStep(t2);
    StepsJoin(t, t1, t2, EnsureExecution(t2).value, rpc, ids + {e.id});
  }

  lemma StepsJoin(t: Table, t1: Table, t2: Table, t3: Table, rpc: string, ids: set<string>)
    requires RequestAdded(t, t1, rpc, ids) && ResponseAdded(t1, t2, rpc, ids) && ExecutionAdded(t2, t3)
    ensures EndpointAdds(t, t3, rpc, ids)
  {
    hide Closed, EntryOk, Reaches, DistinctNames, Under, TypesOf, NamesOf, SoundTable, Mentions, PlatformMessage.Name;
    StepsOwnedBy(t2, t3, ids);
    forall n | n in t3.messages && n !in t.messages
      ensures DistinctNames(t3.messages[n].fields) && (Under(t3, rpc, n) || n == Execution.Name() || n == ExecutionLog.Name())
    {
      if n in t1.messages {
        NewUnder(t1, t2, rpc, n);
        NewUnder(t2, t3, rpc, n);
      } else if n in t2.messages {
        NewUnder(t2, t3, rpc, n);
      }
    }
  }

  lemma StepsOwnedBy(t: Table, r: Table, ids: set<string>)
    requires OwnedBy(t, ids) && SoundTable(t) && ExecutionAdded(t, r)
    ensures OwnedBy(r, ids) && r.origins.Keys == r.messages.Keys
  {
    hide Closed, EntryOk, Mentions, DistinctNames, PlatformMessage.Name;
  }

  lemma NewUnder(a: Table, b: Table, rpc: string, n: string)
    requires Preserves(a, b, {}) && Under(a, rpc, n)
    ensures Under(b, rpc, n)
  {
    PreservesGrows(a, b);
    UnderGrows(a, b, rpc, n);
  }

  /** Everything is reachable once the response mentions the execution metadata. */
  lemma RootedStep(t: Table, r: Table, q: Table, methods: seq<string>, rpc: string, ids: set<string>, response: string)
    requires Rooted(t, methods) && EndpointAdds(t, r, rpc, ids)
    requires response in r.messages && Grows(r, q) && q.messages.Keys == r.messages.Keys
    requires Execution.Name() in Mentions(q)[response]
    requires exists m | m in methods + [rpc] :: response == ResponseName(m)
    ensures Rooted(q, methods + [rpc])
  {
    forall n | n in q.messages ensures exists m | m in methods + [rpc] :: Under(q, m, n) {
      if n in t.messages {
        var m :| m in methods && Under(t, m, n);
        NewUnder(t, r, m, n);
        UnderGrows(r, q, m, n);
        assert m in methods + [rpc];
      } else if Under(r, rpc, n) {
        UnderGrows(r, q, rpc, n);
        assert rpc in methods + [rpc];
      } else {
        var m :| m in methods + [rpc] && response == ResponseName(m);
        ExecutionReached(r, q, response);
        assert Under(q, m, n);
      }
    }
  }

  lemma ExecutionReached(r: Table, q: Table, response: string)
    requires response in r.messages && Grows(r, q) && Execution.Name() in r.messages && ExecutionLog.Name() in r.messages
    requires Execution.Name() in Mentions(q)[response] && ExecutionLog.Name() in Mentions(r)[Execution.Name()]
    ensures Reaches(Mentions(q), response, Execution.Name()) && Reaches(Mentions(q), response, ExecutionLog.Name())
  {
    GrowsMentions(r, q);
    var g := Mentions(q);
    ReachesSelf(g, Execution.Name());
    ReachesSelf(g, ExecutionLog.Name());
    ReachesBefore(g, response, Execution.Name(), Execution.Name());
    ReachesBefore(g, Execution.Name(), ExecutionLog.Name(), ExecutionLog.Name());
    ReachesBefore(g, response, Execution.Name(), ExecutionLog.Name());
  }

  /** What one pass of the loop establishes. */
  ghost predicate EndpointDone(p: Progress, q: Progress, e: Endpoint, ids: set<string>) {
    && ProgressOk(q, ids)
    && Pascal(e.id).Some? && q.methods == p.methods + [Pascal(e.id).value]
    && Grows(p.table, q.table)
    && (Tidy(p.table) && !EmptyResponse(e) ==> Tidy(q.table))
    && (EmptyResponse(e) ==> !Tidy(q.table))
  }

  lemma EndpointStep(p: Progress, e: Endpoint, ids: set<string>)
    requires ProgressOk(p, ids) && e.id !in ids && AddEndpoint(p, e).Ok?
    ensures EndpointDone(p, AddEndpoint(p, e).value, e, ids + {e.id})
  {
    hide SoundTable, Rooted, Tidy, Instrumented, RootsOk, OwnedBy, HasExecution, EndpointAdds;
    var rpc := Pascal(e.id).value;
    var t := AddMessages(p.table, rpc, e).value;
    MessagesStep(p.table, rpc, e, ids);
    EndpointJoin(p, t, e, rpc, ResponseLocal(p, rpc, e).value, ids + {e.id});
  }

  lemma EndpointJoin(p: Progress, t: Table, e: Endpoint, rpc: string, response: string, ids: set<string>)
    requires SoundTable(p.table) && Rooted(p.table, p.methods) && Distinct(p.methods) && Instrumented(p)
    requires forall m | m in p.methods :: m != "" && IsUpper(m[0]) && RootsOk(p.table, m)
    requires p.response.Some? ==>
      HasExecution(p.table, p.response.value) && exists m | m in p.methods :: p.response.value == ResponseName(m)
    requires rpc !in p.methods && rpc != "" && IsUpper(rpc[0]) && EndpointAdds(p.table, t, rpc, ids)
    requires ResponseLocal(p, rpc, e) == Some(response) && Pascal(e.id) == Some(rpc)
    ensures EndpointDone(p, Progress(Append(t, response, [Plain("execution", Execution.Name())]), p.methods + [rpc], Some(response)), e, ids)
  {
    hide SoundTable, Under, DistinctNames, PlatformMessage.Name, Grows, Preserves, Rooted, Tidy, Instrumented, Mentions, Distinct, RootsOk, HasExecution, NamesOf, OwnedBy, Append, EndpointAdds, ResponseName, EmptyResponse, ResponseLocal;
    var q := Progress(Append(t, response, [Plain("execution", Execution.Name())]), p.methods + [rpc], Some(response));
    AddsParts(p.table, t, rpc, ids);
    ResponseKnown(p, t, e, rpc, response, ids);
    AppendStep(t, response);
    SameKeys(t);
    SameOwners(t, q.table, ids);
    PreservesGrows(p.table, t);
    GrowsTransitive(p.table, t, q.table);
    RootedStep(p.table, t, q.table, p.methods, rpc, ids, response);
    RootsKept(p, t, q, rpc);
    InstrumentedStep(p, t, q, e, rpc, response);
    TidyStep(p.table, t, q.table, e, rpc, response, ids);
  }

  lemma AddsParts(t: Table, r: Table, rpc: string, ids: set<string>)
    requires EndpointAdds(t, r, rpc, ids)
    ensures SoundTable(r) && OwnedBy(r, ids) && Preserves(t, r, {}) && RootsOk(r, rpc) && Execution.Name() in r.messages
  {
    hide SoundTable, OwnedBy, Preserves, RootsOk, PlatformMessage.Name;
  }

  lemma SameOwners(t: Table, q: Table, ids: set<string>)
    requires OwnedBy(t, ids) && q.origins == t.origins
    ensures OwnedBy(q, ids)
  {
  }

  lemma TidyStep(p: Table, t: Table, q: Table, e: Endpoint, rpc: string, response: string, ids: set<string>)
    requires EndpointAdds(p, t, rpc, ids) && response in t.messages
    requires q == Append(t, response, [Plain("execution", Execution.Name())])
    requires EmptyResponse(e) ==> HasExecution(t, response)
    requires !EmptyResponse(e) ==> response == ResponseName(rpc)
    ensures Tidy(p) && !EmptyResponse(e) ==> Tidy(q)
    ensures EmptyResponse(e) ==> !Tidy(q)
  {
    hide SoundTable, Under, DistinctNames, Preserves, Tidy, Mentions, RootsOk, HasExecution, NamesOf, OwnedBy, Append, ResponseName;
    if EmptyResponse(e) {
      ExecutionTwice(t, q, response);
    } else if Tidy(p) {
      ExecutionOnce(p, t, q, response);
    }
  }

  lemma SameKeys(t: Table)
    requires SoundTable(t)
    ensures t.messages.Keys == t.origins.Keys
  {
  }

  lemma HasExecutionGrows(a: Table, b: Table, name: string)
    requires Grows(a, b) && HasExecution(a, name)
    ensures HasExecution(b, name)
  {
    var f :| f in a.messages[name].fields && f.name == "execution";
    var i :| 0 <= i < |a.messages[name].fields| && a.messages[name].fields[i] == f;
    assert b.messages[name].fields[i] == f;
  }

  lemma InstrumentedStep(p: Progress, t: Table, q: Progress, e: Endpoint, rpc: string, response: string)
    requires Instrumented(p) && Grows(p.table, q.table) && q.methods == p.methods + [rpc]
    requires q.table == Append(t, response, [Plain("execution", Execution.Name())])
    requires ResponseLocal(p, rpc, e) == Some(response) && HasExecution(q.table, response)
    requires EmptyResponse(e) ==> HasExecution(t, response)
    ensures Instrumented(q)
  {
    hide HasExecution, DistinctNames;
    if Tidy(q.table) {
      if !Tidy(p.table) { UntidyStays(p.table, q.table); }
      if EmptyResponse(e) { ExecutionTwice(t, q.table, response); }
      forall m | m in q.methods ensures HasExecution(q.table, ResponseName(m)) {
        if m in p.methods { HasExecutionGrows(p.table, q.table, ResponseName(m)); }
      }
    }
  }

  lemma ResponseKnown(p: Progress, t: Table, e: Endpoint, rpc: string, response: string, ids: set<string>)
    requires forall m | m in p.methods :: RootsOk(p.table, m)
    requires p.response.Some? ==>
      HasExecution(p.table, p.response.value) && exists m | m in p.methods :: p.response.value == ResponseName(m)
    requires EndpointAdds(p.table, t, rpc, ids) && ResponseLocal(p, rpc, e) == Some(response)
    ensures response in t.messages && t.origins[response].Path?
    ensures exists m | m in p.methods + [rpc] :: response == ResponseName(m)
    ensures EmptyResponse(e) ==> HasExecution(t, response)
    ensures !EmptyResponse(e) ==> response == ResponseName(rpc)
  {
    if EmptyResponse(e) {
      var m :| m in p.methods && response == ResponseName(m);
      assert RootsOk(p.table, m) && m in p.methods + [rpc];
    } else {
      assert rpc in p.methods + [rpc];
    }
  }

  lemma RootsKept(p: Progress, t: Table, q: Progress, rpc: string)
    requires Preserves(p.table, t, {}) && Grows(t, q.table) && rpc !in p.methods && q.methods == p.methods + [rpc]
    requires Distinct(p.methods) && q.table.messages.Keys == q.table.origins.Keys && q.table.origins == t.origins
    requires RootsOk(t, rpc) && rpc != "" && IsUpper(rpc[0])
    requires forall m | m in p.methods :: m != "" && IsUpper(m[0]) && RootsOk(p.table, m)
    ensures Distinct(q.methods)
    ensures forall m | m in q.methods :: m != "" && IsUpper(m[0]) && RootsOk(q.table, m)
  {
    forall m | m in q.methods ensures m != "" && IsUpper(m[0]) && RootsOk(q.table, m) {
      if m in p.methods {
        assert RootsOk(p.table, m);
      }
    }
  }

  lemma ExecutionTwice(t: Table, q: Table, response: string)
    requires HasExecution(t, response) && q == Append(t, response, [Plain("execution", Execution.Name())])
    ensures !Tidy(q)
  {
    var fields := q.messages[response].fields;
    var f :| f in t.messages[response].fields && f.name == "execution";
    var i :| 0 <= i < |t.messages[response].fields| && t.messages[response].fields[i] == f;
    assert fields[i].name == fields[|fields| - 1].name;
    assert !DistinctNames(fields);
  }

  lemma ExecutionOnce(t: Table, r: Table, q: Table, response: string)
    requires Tidy(t) && response in r.messages && Preserves(t, r, {})
    requires forall n | n in r.messages && n !in t.messages :: DistinctNames(r.messages[n].fields)
    requires "execution" !in NamesOf(r.messages[response].fields)
    requires q == Append(r, response, [Plain("execution", Execution.Name())])
    ensures Tidy(q)
  {
    var fields := r.messages[response].fields;
    assert forall i | 0 <= i < |fields| :: NamesOf(fields)[i] == fields[i].name;
  }

  lemma UntidyStays(a: Table, b: Table)
    requires Grows(a, b) && !Tidy(a)
    ensures !Tidy(b)
  {
    var n :| n in a.messages && !DistinctNames(a.messages[n].fields);
    var fields := a.messages[n].fields;
    var i, j :| 0 <= i < j < |fields| && fields[i].name == fields[j].name;
    assert b.messages[n].fields[i].name == b.messages[n].fields[j].name;
  }

  // ---------------------------------------------------------------- the whole loop

  function Ids(endpoints: seq<Endpoint>): set<string> {
    set e | e in endpoints :: e.id
  }

  predicate UniqueIds(endpoints: seq<Endpoint>) {
    forall i, j | 0 <= i < j < |endpoints| :: endpoints[i].id != endpoints[j].id
  }

  /** The methods follow the endpoints. */
  ghost predicate MethodsFollow(before: seq<string>, after: seq<string>, endpoints: seq<Endpoint>) {
    && |after| == |before| + |endpoints|
    && before <= after
    && forall i | 0 <= i < |endpoints| :: Pascal(endpoints[i].id) == Some(after[|before| + i])
  }

  lemma {:induction false} LoopKeeps(p: Progress, endpoints: seq<Endpoint>, ids: set<string>)
    requires ProgressOk(p, ids) && UniqueIds(endpoints) && Ids(endpoints) !! ids && AddEndpoints(p, endpoints).Ok?
    ensures LoopDone(p, AddEndpoints(p, endpoints).value, endpoints, ids + Ids(endpoints))
    decreases |endpoints|
  {
    hide SoundTable, Rooted, Tidy, Instrumented, RootsOk, OwnedBy, HasExecution, AddEndpoint;
    if endpoints == [] {
      assert ids + Ids(endpoints) == ids;
    } else {
      var e := endpoints[0];
      var n := AddEndpoint(p, e).value;
      assert e.id in Ids(endpoints);
      EndpointStep(p, e, ids);
      IdsSplit(endpoints);
      LoopKeeps(n, endpoints[1..], ids + {e.id});
      LoopJoin(p, n, AddEndpoints(n, endpoints[1..]).value, endpoints, ids);
    }
  }

  /** What the rest of the loop establishes. */
  ghost predicate LoopDone(p: Progress, q: Progress, endpoints: seq<Endpoint>, ids: set<string>) {
    && ProgressOk(q, ids) && MethodsFollow(p.methods, q.methods, endpoints)
    && Grows(p.table, q.table)
    && (Tidy(q.table) <==> Tidy(p.table) && forall e | e in endpoints :: !EmptyResponse(e))
  }

  lemma LoopJoin(p: Progress, n: Progress, q: Progress, endpoints: seq<Endpoint>, ids: set<string>)
    requires endpoints != [] && UniqueIds(endpoints)
    requires EndpointDone(p, n, endpoints[0], ids + {endpoints[0].id})
    requires LoopDone(n, q, endpoints[1..], ids + {endpoints[0].id} + Ids(endpoints[1..]))
    ensures LoopDone(p, q, endpoints, ids + Ids(endpoints))
  {
    hide SoundTable, Rooted, Tidy, Instrumented, RootsOk, OwnedBy, HasExecution;
    IdsSplit(endpoints);
    assert ids + Ids(endpoints) == ids + {endpoints[0].id} + Ids(endpoints[1..]);
    GrowsTransitive(p.table, n.table, q.table);
    LoopTidy(p.table, n.table, q.table, endpoints);
    MethodsJoin(p.methods, n.methods, q.methods, endpoints);
  }

  lemma MethodsJoin(a: seq<string>, b: seq<string>, c: seq<string>, endpoints: seq<Endpoint>)
    requires endpoints != [] && Pascal(endpoints[0].id).Some? && b == a + [Pascal(endpoints[0].id).value]
    requires MethodsFollow(b, c, endpoints[1..])
    ensures MethodsFollow(a, c, endpoints)
  {
    forall i | 0 <= i < |endpoints| ensures Pascal(endpoints[i].id) == Some(c[|a| + i]) {
      if i > 0 {
        assert endpoints[1..][i - 1] == endpoints[i];
        assert c[|b| + (i - 1)] == c[|a| + i];
      } else {
        assert c[|a|] == b[|a|];
      }
    }
  }

  lemma IdsSplit(endpoints: seq<Endpoint>)
    requires endpoints != [] && UniqueIds(endpoints)
    ensures Ids(endpoints) == {endpoints[0].id} + Ids(endpoints[1..])
    ensures UniqueIds(endpoints[1..]) && endpoints[0].id !in Ids(endpoints[1..])
  {
    assert endpoints == [endpoints[0]] + endpoints[1..];
    assert forall e | e in endpoints :: e == endpoints[0] || e in endpoints[1..];
  }

  lemma LoopTidy(p: Table, n: Table, q: Table, endpoints: seq<Endpoint>)
    requires endpoints != [] && Grows(p, n) && Grows(n, q)
    requires Tidy(p) && !EmptyResponse(endpoints[0]) ==> Tidy(n)
    requires EmptyResponse(endpoints[0]) ==> !Tidy(n)
    requires Tidy(q) <==> Tidy(n) && forall e | e in endpoints[1..] :: !EmptyResponse(e)
    ensures Tidy(q) <==> Tidy(p) && forall e | e in endpoints :: !EmptyResponse(e)
  {
    if !Tidy(p) { UntidyStays(p, n); }
    assert endpoints == [endpoints[0]] + endpoints[1..];
    assert forall e | e in endpoints :: e == endpoints[0] || e in endpoints[1..];
  }

  lemma StartOk()
    ensures ProgressOk(START, {}) && Tidy(START.table)
  {
  }

  /** What a successful construction leaves. */
  lemma BuildSound(endpoints: seq<Endpoint>)
    requires UniqueIds(endpoints) && Build(endpoints).Ok?
    ensures var p := Build(endpoints).value;
      && ProgressOk(p, Ids(endpoints)) && MethodsFollow([], p.methods, endpoints)
      && (Tidy(p.table) <==> forall e | e in endpoints :: !EmptyResponse(e))
  {
    hide AddEndpoints, SoundTable, Rooted, Tidy, Instrumented, RootsOk, OwnedBy, HasExecution;
    StartOk();
    LoopKeeps(START, endpoints, {});
    assert {} + Ids(endpoints) == Ids(endpoints);
  }

  predicate OneExecution(fields: seq<Field>) {
    exists i | 0 <= i < |fields| :: fields[i].name == "execution" && forall j | 0 <= j < |fields| && fields[j].name == "execution" :: j == i
  }

  /** Without empty Struct responses, every response message has exactly one field `execution`. */
  lemma OneExecutionPerResponse(endpoints: seq<Endpoint>, rpc: string)
    requires UniqueIds(endpoints) && Build(endpoints).Ok? && forall e | e in endpoints :: !EmptyResponse(e)
    requires rpc in Build(endpoints).value.methods
    ensures var t := Build(endpoints).value.table;
      ResponseName(rpc) in t.messages && OneExecution(t.messages[ResponseName(rpc)].fields)
  {
    hide AddEndpoints, SoundTable, Rooted, RootsOk, OwnedBy;
    BuildSound(endpoints);
    var p := Build(endpoints).value;
    assert HasExecution(p.table, ResponseName(rpc));
    var fields := p.table.messages[ResponseName(rpc)].fields;
    assert DistinctNames(fields);
    var f :| f in fields && f.name == "execution";
    var i :| 0 <= i < |fields| && fields[i] == f;
    assert forall j | 0 <= j < |fields| && fields[j].name == "execution" :: j == i;
  }
}
