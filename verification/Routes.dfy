/** The gRPC routing snapshot, rebuilt from the live endpoints. */
module Routes {
  import opened Prelude
  import opened Names
  import opened Activation

  /** A resolved endpoint, as far as routing goes. */
  datatype Target = Target(service: nat, revision: nat, endpoint: EndpointSpec)

  datatype DuplicateRoute = DuplicateRoute(path: string, first: nat, second: nat)

  /** The live endpoints: of serving services, on a revision whose manifest is current. */
  predicate Listed(db: Db, t: Target) {
    && t.service in db.services && Serving(db, t.service)
    && db.services[t.service].activeRevision == Some(t.revision)
    && Served(db, t.service).supported
    && t.endpoint in Served(db, t.service).endpoints
  }

  predicate Routed(t: Target, path: string) {
    t.endpoint.grpc.Some? && Path(t.endpoint.grpc.value) == path
  }

  // ---------------------------------------------------------------- the text of a path

  /** The position of the last slash. */
  function LastSlash(text: string): (k: Option<nat>)
    ensures k.None? <==> '/' !in text
    ensures k.Some? ==> k.value < |text| && text[k.value] == '/' && '/' !in text[k.value + 1..]
  {
    if text == "" then None
    else if text[|text| - 1] == '/' then Some(|text| - 1)
    else
      var k := LastSlash(text[..|text| - 1]);
      assert text == text[..|text| - 1] + [text[|text| - 1]];
      assert k.Some? ==> text[k.value + 1..] == text[..|text| - 1][k.value + 1..] + [text[|text| - 1]];
      k
  }

  /** How a client writes a call: slash, service, slash, method. */
  function ReadPath(text: string): Option<GrpcTarget> {
    match LastSlash(text)
    case None => None
    case Some(k) => if k > 0 && text[0] == '/' then Some(GrpcTarget(text[1..k], text[k + 1..])) else None
  }

  /** The route of a method is filed under its service and name, and can be read back. */
  lemma PathReads(g: GrpcTarget)
    requires '/' !in g.name
    ensures ReadPath(Path(g)) == Some(g)
  {
    var p, k := Path(g), 1 + |g.service|;
    assert p[0] == '/' && p[k] == '/' && p[1..k] == g.service && p[k + 1..] == g.name;
    OneLastSlash(p, LastSlash(p).value, k);
  }

  lemma OneLastSlash(text: string, j: nat, k: nat)
    requires j < |text| && k < |text| && text[j] == '/' && text[k] == '/'
    requires '/' !in text[j + 1..] && '/' !in text[k + 1..]
    ensures j == k
  {
    NoSlashAfter(text, j);
    NoSlashAfter(text, k);
  }

  lemma NoSlashAfter(text: string, k: nat)
    requires k < |text| && '/' !in text[k + 1..]
    ensures forall i | k < i < |text| :: text[i] != '/'
  {
    assert forall i | k < i < |text| :: text[i] == text[k + 1..][i - k - 1];
  }

  lemma ReadPathIsPath(text: string)
    requires ReadPath(text).Some?
    ensures Path(ReadPath(text).value) == text && '/' !in ReadPath(text).value.name
  {
    var k := LastSlash(text).value;
    assert text == "/" + text[1..k] + "/" + text[k + 1..];
  }

  /** Two methods share a path exactly when they are the same. */
  lemma PathsDiffer(g: GrpcTarget, h: GrpcTarget)
    requires '/' !in g.name && '/' !in h.name
    ensures Path(g) == Path(h) <==> g == h
  {
    hide Path, ReadPath;
    PathReads(g);
    PathReads(h);
  }

  // ---------------------------------------------------------------- targets

  predicate NoDuplicates(targets: seq<Target>) {
    forall i, j | 0 <= i < j < |targets| ::
      targets[i].endpoint.grpc.Some? ==> !Routed(targets[j], Path(targets[i].endpoint.grpc.value))
  }

  /** The path of the j-th target is that of the i-th, and no earlier target repeats one. */
  ghost predicate DuplicateAt(targets: seq<Target>, d: DuplicateRoute, i: nat, j: nat)
    requires i < j < |targets|
  {
    && NoDuplicates(targets[..j]) && Routed(targets[i], d.path) && Routed(targets[j], d.path)
    && d.first == targets[i].service && d.second == targets[j].service
  }

  ghost predicate FirstDuplicate(targets: seq<Target>, d: DuplicateRoute) {
    exists i, j | 0 <= i < j < |targets| :: DuplicateAt(targets, d, i, j)
  }

  /** The table holds exactly the routes of the targets. */
  predicate TableOf(routes: map<string, Target>, targets: seq<Target>) {
    && (forall t | t in targets && t.endpoint.grpc.Some? :: Path(t.endpoint.grpc.value) in routes)
    && (forall p | p in routes :: routes[p] in targets && Routed(routes[p], p))
  }

  /** A path is served by at most one endpoint of one service. */
  lemma PathHasOneOwner(db: Db, a: Target, b: Target, path: string)
    requires Inv(db) && Listed(db, a) && Listed(db, b) && Routed(a, path) && Routed(b, path)
    ensures a == b
  {
    var ra, rb := Served(db, a.service), Served(db, b.service);
    assert path in GrpcMethodPaths(ra) && path in GrpcMethodPaths(rb);
    assert a.service != b.service ==> Apart(ra, rb);
    assert UniqueRoutes(ra.endpoints);
    var i :| 0 <= i < |ra.endpoints| && ra.endpoints[i] == a.endpoint;
    var j :| 0 <= j < |ra.endpoints| && ra.endpoints[j] == b.endpoint;
    assert i == j;
  }

  /** A successful activation swaps all endpoints of the service at once, and no other service's. */
  lemma ActivationSwitches(db: Db, s: nat, r: nat, t: Target)
    requires Inv(db) && CanActivate(db, s, r) && db.services[s].status != Stopped
    ensures Listed(Step(db, Activate(s, r)), t) <==>
      if t.service == s then t.revision == r && t.endpoint in db.revisions[r].endpoints else Listed(db, t)
  {
    if t.service != s { OthersKeepServing(db, s, r, t.service); }
    hide Inv, RoutesFree, GrpcMethodPaths, UniqueRoutes;
  }

  /** A stop withdraws the endpoints of that service; while it is stopped an activation lists nothing of it. */
  lemma StopWithdraws(db: Db, s: nat, t: Target)
    requires s in db.services && db.services[s].status == Live
    ensures Listed(Step(db, Stop(s)), t) <==> Listed(db, t) && t.service != s
  {
  }

  lemma StoppedListsNothing(db: Db, s: nat, r: nat, t: Target)
    requires s in db.services && db.services[s].status == Stopped && t.service == s
    ensures !Listed(db, t) && !Listed(Step(db, Activate(s, r)), t)
  {
    hide RoutesFree, GrpcMethodPaths;
  }

  /** A start lists the endpoints of the revision the service had. */
  lemma StartLists(db: Db, s: nat, t: Target)
    requires Inv(db) && CanStart(db, s)
    ensures Listed(Step(db, Start(s)), t) <==>
      if t.service == s
      then db.services[s].activeRevision == Some(t.revision) && t.endpoint in db.revisions[t.revision].endpoints
      else Listed(db, t)
  {
    StoppedHasRevision(db, s);
    hide Inv, RoutesFree, GrpcMethodPaths;
  }

  /** Stopping the services with an old specification withdraws no endpoint: theirs were not listed. */
  lemma StopUnsupportedWithdrawsNothing(db: Db, t: Target)
    ensures Listed(Step(db, StopUnsupported), t) <==> Listed(db, t)
  {
  }

  /** A listing: every live endpoint once. */
  predicate Listing(db: Db, targets: seq<Target>) {
    && (forall t | t in targets :: Listed(db, t))
    && (forall i, j | 0 <= i < j < |targets| :: targets[i] != targets[j])
  }

  lemma ListingHasNoDuplicates(db: Db, targets: seq<Target>)
    requires Inv(db) && Listing(db, targets)
    ensures NoDuplicates(targets)
  {
    hide Inv, Listed;
    forall i, j | 0 <= i < j < |targets| && targets[i].endpoint.grpc.Some?
      ensures !Routed(targets[j], Path(targets[i].endpoint.grpc.value))
    {
      if Routed(targets[j], Path(targets[i].endpoint.grpc.value)) {
        PathHasOneOwner(db, targets[i], targets[j], Path(targets[i].endpoint.grpc.value));
        assert false;
      }
    }
  }

  function NameOf(db: Db, t: Target): string
    requires t.service in db.services
  {
    db.services[t.service].name
  }

  /** Rows are ordered by service name, then by endpoint id. */
  predicate Precedes(db: Db, a: Target, b: Target) {
    && a.service in db.services && b.service in db.services
    && (Before(NameOf(db, a), NameOf(db, b)) || (NameOf(db, a) == NameOf(db, b) && Before(a.endpoint.id, b.endpoint.id)))
  }

  predicate Ordered(db: Db, targets: seq<Target>) {
    forall i, j | 0 <= i < j < |targets| :: Precedes(db, targets[i], targets[j])
  }

  lemma OrderedIsListing(db: Db, targets: seq<Target>)
    requires Ordered(db, targets) && forall t | t in targets :: Listed(db, t)
    ensures Listing(db, targets)
  {
    hide Listed;
    forall i, j | 0 <= i < j < |targets| ensures targets[i] != targets[j] {
      assert Precedes(db, targets[i], targets[j]);
      BeforeTotal(NameOf(db, targets[i]), NameOf(db, targets[j]));
      BeforeTotal(targets[i].endpoint.id, targets[j].endpoint.id);
    }
  }

  lemma OrderedJoin(db: Db, a: seq<Target>, b: seq<Target>)
    requires Ordered(db, a) && Ordered(db, b) && forall s, t | s in a && t in b :: Precedes(db, s, t)
    ensures Ordered(db, a + b)
  {
    hide Precedes;
    var c := a + b;
    forall i, j | 0 <= i < j < |c| ensures Precedes(db, c[i], c[j]) {
      if i < |a| <= j { assert c[i] in a && c[j] in b; }
    }
  }

  /** The rows of one serving service, by endpoint id. */
  method ListEndpoints(db: Db, s: nat) returns (rows: seq<Target>)
    requires Inv(db) && Serving(db, s)
    ensures Ordered(db, rows)
    ensures forall t :: t in rows <==> Listed(db, t) && t.service == s
  {
    var r, revision := Served(db, s), db.services[s].activeRevision.value;
    rows := [];
    if !r.supported { return; }
    assert UniqueRoutes(r.endpoints);
    hide Inv, Ordered, UniqueRoutes, RowsOf, Listed, Serving, Served;
    var ids := Sorted(set e | e in r.endpoints :: e.id);
    NoRows(db, s);
    for i := 0 to |ids|
      invariant Ordered(db, rows) && RowsOf(db, rows, s, ids[..i])
    {
      assert ids[i] in ids;
      var e :| e in r.endpoints && e.id == ids[i];
      RowJoins(db, rows, s, ids, i, e);
      rows := rows + [Target(s, revision, e)];
    }
    assert ids[..|ids|] == ids;
    AllRows(db, rows, s, ids);
  }

  /** The rows of these endpoints of the service, and no other. */
  ghost predicate RowsOf(db: Db, rows: seq<Target>, s: nat, ids: seq<string>) {
    forall t :: t in rows <==> Listed(db, t) && t.service == s && t.endpoint.id in ids
  }

  lemma NoRows(db: Db, s: nat)
    ensures Ordered(db, []) && forall ids: seq<string> | ids == [] :: RowsOf(db, [], s, ids)
  {
  }

  lemma RowJoins(db: Db, rows: seq<Target>, s: nat, ids: seq<string>, i: nat, e: EndpointSpec)
    requires Serving(db, s) && UniqueRoutes(Served(db, s).endpoints) && Served(db, s).supported
    requires i < |ids| && forall j, k | 0 <= j < k < |ids| :: Before(ids[j], ids[k])
    requires e in Served(db, s).endpoints && e.id == ids[i]
    requires Ordered(db, rows) && RowsOf(db, rows, s, ids[..i])
    ensures var row := Target(s, db.services[s].activeRevision.value, e);
      Ordered(db, rows + [row]) && RowsOf(db, rows + [row], s, ids[..i + 1])
  {
    hide Ordered, Before, UniqueRoutes;
    var row := Target(s, db.services[s].activeRevision.value, e);
    assert ids[..i + 1] == ids[..i] + [ids[i]];
    forall t | t in rows ensures Precedes(db, t, row) {
      var j :| 0 <= j < i && ids[j] == t.endpoint.id;
    }
    OneRow(db, [row]);
    OrderedJoin(db, rows, [row]);
    OneEndpoint(Served(db, s).endpoints, e);
  }

  lemma OneRow(db: Db, rows: seq<Target>)
    requires |rows| == 1
    ensures Ordered(db, rows)
  {
  }

  lemma AllRows(db: Db, rows: seq<Target>, s: nat, ids: seq<string>)
    requires Serving(db, s) && RowsOf(db, rows, s, ids)
    requires forall e | e in Served(db, s).endpoints :: e.id in ids
    ensures forall t :: t in rows <==> Listed(db, t) && t.service == s
  {
  }

  lemma OneEndpoint(endpoints: seq<EndpointSpec>, e: EndpointSpec)
    requires UniqueRoutes(endpoints) && e in endpoints
    ensures forall x | x in endpoints && x.id == e.id :: x == e
  {
    var i :| 0 <= i < |endpoints| && endpoints[i] == e;
    forall x | x in endpoints && x.id == e.id ensures x == e {
      var j :| 0 <= j < |endpoints| && endpoints[j] == x;
      assert i == j;
    }
  }

  /** Rows of a query over the live services, in its order. */
  method ListActiveEndpoints(db: Db) returns (targets: seq<Target>)
    requires Inv(db)
    ensures forall t :: t in targets <==> Listed(db, t)
    ensures Ordered(db, targets) && Listing(db, targets)
  {
    hide Inv, Listing, Ordered, ListedUnder, Listed;
    var names := Sorted(set s | s in db.services && Serving(db, s) :: db.services[s].name);
    targets := [];
    NothingListed(db);
    for i := 0 to |names|
      invariant Ordered(db, targets) && ListedUnder(db, targets, names[..i])
    {
      assert names[i] in names;
      var s :| s in db.services && Serving(db, s) && db.services[s].name == names[i];
      var rows := ListEndpoints(db, s);
      ServiceJoins(db, targets, rows, names, i, s);
      targets := targets + rows;
    }
    assert names[..|names|] == names;
    AllListed(db, targets, names);
    OrderedIsListing(db, targets);
  }

  /** The rows of the services of these names, and no other. */
  ghost predicate ListedUnder(db: Db, targets: seq<Target>, names: seq<string>) {
    forall t :: t in targets <==> Listed(db, t) && NameOf(db, t) in names
  }

  lemma NothingListed(db: Db)
    ensures Ordered(db, []) && forall names: seq<string> | names == [] :: ListedUnder(db, [], names)
  {
  }

  lemma ServiceJoins(db: Db, targets: seq<Target>, rows: seq<Target>, names: seq<string>, i: nat, s: nat)
    requires Inv(db) && i < |names| && s in db.services && db.services[s].name == names[i]
    requires forall j, k | 0 <= j < k < |names| :: Before(names[j], names[k])
    requires Ordered(db, targets) && ListedUnder(db, targets, names[..i])
    requires Ordered(db, rows) && forall t :: t in rows <==> Listed(db, t) && t.service == s
    ensures Ordered(db, targets + rows) && ListedUnder(db, targets + rows, names[..i + 1])
  {
    hide Inv, Ordered, Before;
    LaterName(db, targets, rows, names, i, s);
    OrderedJoin(db, targets, rows);
    SameService(db, s);
    assert names[..i + 1] == names[..i] + [names[i]];
  }

  lemma AllListed(db: Db, targets: seq<Target>, names: seq<string>)
    requires ListedUnder(db, targets, names)
    requires forall s | s in db.services && Serving(db, s) :: db.services[s].name in names
    ensures forall t :: t in targets <==> Listed(db, t)
  {
  }

  lemma LaterName(db: Db, targets: seq<Target>, rows: seq<Target>, names: seq<string>, i: nat, s: nat)
    requires i < |names| && s in db.services && db.services[s].name == names[i]
    requires forall j, k | 0 <= j < k < |names| :: Before(names[j], names[k])
    requires forall t | t in targets :: t.service in db.services && NameOf(db, t) in names[..i]
    requires forall t | t in rows :: t.service == s
    ensures forall a, b | a in targets && b in rows :: Precedes(db, a, b)
  {
    forall a, b | a in targets && b in rows ensures Precedes(db, a, b) {
      var j :| 0 <= j < i && names[j] == NameOf(db, a);
    }
  }

  lemma SameService(db: Db, s: nat)
    requires Inv(db) && s in db.services
    ensures forall t: Target | t.service in db.services && NameOf(db, t) == db.services[s].name :: t.service == s
  {
    assert NamesUnique(db);
  }

  class GrpcRouteRegistry {
    var routes: map<string, Target>
    var generation: nat
    // the targets of the last successful replacement
    ghost var published: seq<Target>

    ghost predicate Valid()
      reads this
    {
      TableOf(routes, published) && NoDuplicates(published)
    }

    constructor ()
      ensures Valid() && published == [] && generation == 0
    {
      routes, generation, published := map[], 0, [];
    }

    /** A path resolves to the one published target that it names, or no published target names it. */
    method Resolve(path: string) returns (route: Option<Target>)
      requires Valid()
      ensures route.Some? ==> forall t | t in published :: Routed(t, path) <==> t == route.value
      ensures route.Some? ==> route.value in published
      ensures route.None? ==> forall t | t in published :: !Routed(t, path)
    {
      if path !in routes { return None; }
      forall t | t in published && Routed(t, path) ensures t == routes[path] {
        OneTarget(published, t, routes[path], path);
      }
      return Some(routes[path]);
    }

    /** The snapshot is swapped as a whole, and only when no two targets share a path. */
    method Replace(targets: seq<Target>) returns (r: Result<nat, DuplicateRoute>)
      requires Valid()
      modifies this
      ensures Valid()
      ensures r.Ok? <==> NoDuplicates(targets)
      ensures r.Ok? ==> published == targets && generation == old(generation) + 1 && r == Ok(generation)
      ensures r.Err? ==> routes == old(routes) && published == old(published) && generation == old(generation)
      ensures r.Err? ==> FirstDuplicate(targets, r.error)
    {
      hide FirstDuplicate;
      var table: map<string, Target> := map[];
      for i := 0 to |targets|
        invariant routes == old(routes) && generation == old(generation) && published == old(published) && Valid()
        invariant NoDuplicates(targets[..i]) && TableOf(table, targets[..i])
      {
        assert targets[..i + 1] == targets[..i] + [targets[i]];
        if targets[i].endpoint.grpc.None? { continue; }
        var path := Path(targets[i].endpoint.grpc.value);
        if path in table {
          PathTaken(targets, i, table, path);
          DuplicateFound(targets, i, table, path);
          return Err(DuplicateRoute(path, table[path].service, targets[i].service));
        }
        PathNew(targets, i, table, path);
        table := table[path := targets[i]];
      }
      assert targets[..|targets|] == targets;
      routes, published := table, targets;
      generation := generation + 1;
      return Ok(generation);
    }

    /** Rebuilding from a reachable database never fails, and each path resolves to the one live endpoint that owns it. */
    method Refresh(repository: ServiceRepository) returns (r: Result<nat, DuplicateRoute>)
      requires repository.Valid() && Valid()
      modifies this
      ensures Valid() && r.Ok? && generation == old(generation) + 1
      ensures forall t | Listed(repository.View(), t) && t.endpoint.grpc.Some? ::
        Path(t.endpoint.grpc.value) in routes && routes[Path(t.endpoint.grpc.value)] == t
      ensures forall p | p in routes :: Listed(repository.View(), routes[p]) && Routed(routes[p], p)
      ensures forall t, service, name | Listed(repository.View(), t) && t.endpoint.grpc == Some(GrpcTarget(service, name)) ::
        var p := "/" + service + "/" + name;
        p in routes && routes[p] == t && ('/' !in name ==> ReadPath(p) == Some(GrpcTarget(service, name)))
    {
      hide ReadPath, Inv, Listed, Listing, NoDuplicates;
      var db := Db(repository.services, repository.revisions);
      var targets := ListActiveEndpoints(db);
      ListingHasNoDuplicates(db, targets);
      assert forall t | t in targets :: Listed(db, t);
      r := Replace(targets);
      forall t | Listed(db, t) && t.endpoint.grpc.Some?
        ensures Path(t.endpoint.grpc.value) in routes && routes[Path(t.endpoint.grpc.value)] == t
        ensures '/' !in t.endpoint.grpc.value.name ==> ReadPath(Path(t.endpoint.grpc.value)) == t.endpoint.grpc
      {
        var p := Path(t.endpoint.grpc.value);
        assert t in targets;
        PathHasOneOwner(db, t, routes[p], p);
        if '/' !in t.endpoint.grpc.value.name { PathReads(t.endpoint.grpc.value); }
      }
    }
  }

  lemma OneTarget(targets: seq<Target>, a: Target, b: Target, path: string)
    requires NoDuplicates(targets) && a in targets && b in targets && Routed(a, path) && Routed(b, path)
    ensures a == b
  {
    var i :| 0 <= i < |targets| && targets[i] == a;
    var j :| 0 <= j < |targets| && targets[j] == b;
    assert i == j;
  }

  lemma PathTaken(targets: seq<Target>, i: nat, routes: map<string, Target>, path: string)
    requires i < |targets| && Routed(targets[i], path) && path in routes && TableOf(routes, targets[..i])
    ensures !NoDuplicates(targets)
  {
    var j :| 0 <= j < i && targets[j] == routes[path];
    assert Routed(targets[i], Path(targets[j].endpoint.grpc.value));
  }

  lemma DuplicateFound(targets: seq<Target>, i: nat, routes: map<string, Target>, path: string)
    requires i < |targets| && Routed(targets[i], path) && path in routes
    requires TableOf(routes, targets[..i]) && NoDuplicates(targets[..i])
    ensures FirstDuplicate(targets, DuplicateRoute(path, routes[path].service, targets[i].service))
  {
    hide NoDuplicates;
    var j :| 0 <= j < i && targets[..i][j] == routes[path];
    assert DuplicateAt(targets, DuplicateRoute(path, routes[path].service, targets[i].service), j, i);
  }

  lemma PathNew(targets: seq<Target>, i: nat, routes: map<string, Target>, path: string)
    requires i < |targets| && Routed(targets[i], path) && path !in routes
    requires TableOf(routes, targets[..i]) && NoDuplicates(targets[..i])
    ensures TableOf(routes[path := targets[i]], targets[..i + 1]) && NoDuplicates(targets[..i + 1])
  {
    assert targets[..i + 1] == targets[..i] + [targets[i]];
    assert forall j | 0 <= j < i :: targets[j] in targets[..i];
  }
}
