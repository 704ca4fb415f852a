/** Services, their revisions, and which revision of each service is live. */
module Activation {
  import opened Prelude

  datatype GrpcTarget = GrpcTarget(service: string, name: string)

  datatype EndpointSpec = EndpointSpec(id: string, grpc: Option<GrpcTarget>)

  datatype RevisionStatus = Building | Ready | Active | Draining | Retired | Failed

  /** `supported` says the manifest has the current specification version; `contractReady` that its contract row is ready. */
  datatype Revision = Revision(
    service: nat,
    version: string,
    status: RevisionStatus,
    supported: bool,
    endpoints: seq<EndpointSpec>,
    contractReady: bool)

  datatype ServiceStatus = Registered | Live | Stopped

  datatype Service = Service(name: string, status: ServiceStatus, activeRevision: Option<nat>)

  datatype Db = Db(services: map<nat, Service>, revisions: map<nat, Revision>)

  datatype Error = NotFound | InvalidTransition | Conflict

  function Path(g: GrpcTarget): string { "/" + g.service + "/" + g.name }

  function GrpcMethodPaths(r: Revision): set<string> {
    set e | e in r.endpoints && e.grpc.Some? :: Path(e.grpc.value)
  }

  function GrpcServiceNames(r: Revision): set<string> {
    set e | e in r.endpoints && e.grpc.Some? :: e.grpc.value.service
  }

  // ---------------------------------------------------------------- what holds of every reachable database

  /** Endpoint ids and method paths do not repeat inside a revision. */
  predicate UniqueRoutes(es: seq<EndpointSpec>) {
    forall i, j | 0 <= i < j < |es| ::
      es[i].id != es[j].id && (es[i].grpc.Some? && es[j].grpc.Some? ==> Path(es[i].grpc.value) != Path(es[j].grpc.value))
  }

  predicate RevisionsOwned(db: Db) {
    forall r | r in db.revisions :: db.revisions[r].service in db.services && UniqueRoutes(db.revisions[r].endpoints)
  }

  /** The active revision of a service exists, is its own, and is ACTIVE; only a registered service has none. */
  predicate PointersGood(db: Db) {
    forall s | s in db.services ::
      match db.services[s].activeRevision
      case None => db.services[s].status == Registered
      case Some(r) =>
        db.services[s].status != Registered
        && r in db.revisions && db.revisions[r].service == s && db.revisions[r].status == Active
  }

  /** Every ACTIVE revision is the one its service points at, so a service has at most one. */
  predicate OneActive(db: Db) {
    forall r | r in db.revisions && db.revisions[r].status == Active && db.revisions[r].service in db.services ::
      db.services[db.revisions[r].service].activeRevision == Some(r)
  }

  predicate Serving(db: Db, s: nat) {
    && s in db.services && db.services[s].status == Live && db.services[s].activeRevision.Some?
    && db.services[s].activeRevision.value in db.revisions
    && db.revisions[db.services[s].activeRevision.value].status == Active
  }

  function Served(db: Db, s: nat): Revision
    requires Serving(db, s)
  {
    db.revisions[db.services[s].activeRevision.value]
  }

  predicate Apart(a: Revision, b: Revision) {
    GrpcServiceNames(a) !! GrpcServiceNames(b) && GrpcMethodPaths(a) !! GrpcMethodPaths(b)
  }

  ghost predicate NamespacesApart(db: Db) {
    forall s, t | Serving(db, s) && Serving(db, t) && s != t :: Apart(Served(db, s), Served(db, t))
  }

  predicate NamesUnique(db: Db) {
    forall s, t | s in db.services && t in db.services && db.services[s].name == db.services[t].name :: s == t
  }

  ghost predicate Inv(db: Db) {
    RevisionsOwned(db) && PointersGood(db) && OneActive(db) && NamespacesApart(db) && NamesUnique(db)
  }

  // ---------------------------------------------------------------- the transitions

  /** No other serving service publishes a name or a path of this revision. */
  predicate RoutesFree(db: Db, s: nat, r: Revision) {
    forall t | t in db.services && t != s && Serving(db, t) :: Apart(r, Served(db, t))
  }

  predicate Owns(db: Db, s: nat, r: nat) {
    s in db.services && r in db.revisions && db.revisions[r].service == s
  }

  predicate CanActivate(db: Db, s: nat, r: nat) {
    && Owns(db, s, r)
    && db.revisions[r].status in {Ready, Active} && db.revisions[r].supported
    && (GrpcMethodPaths(db.revisions[r]) != {} ==>
        db.revisions[r].contractReady && (db.services[s].status != Stopped ==> RoutesFree(db, s, db.revisions[r])))
  }

  /** The old active revision drains, the new one is active; a stopped service stays stopped. */
  function Activated(db: Db, s: nat, r: nat): Db
    requires Owns(db, s, r)
  {
    var current := db.services[s].activeRevision;
    var drained :=
      if current.Some? && current.value != r && current.value in db.revisions
      then db.revisions[current.value := db.revisions[current.value].(status := Draining)]
      else db.revisions;
    Db(db.services[s := db.services[s].(
                          activeRevision := Some(r),
                          status := if db.services[s].status == Stopped then Stopped else Live)],
       drained[r := drained[r].(status := Active)])
  }

  predicate CanStart(db: Db, s: nat) {
    && s in db.services && db.services[s].status == Stopped && db.services[s].activeRevision.Some?
    && Owns(db, s, db.services[s].activeRevision.value)
    && var r := db.revisions[db.services[s].activeRevision.value];
       r.supported && (GrpcMethodPaths(r) != {} ==> RoutesFree(db, s, r))
  }

  function WithStatus(db: Db, s: nat, status: ServiceStatus): Db
    requires s in db.services
  {
    db.(services := db.services[s := db.services[s].(status := status)])
  }

  function Deleted(db: Db, s: nat): Db {
    Db(db.services - {s}, map r | r in db.revisions && db.revisions[r].service != s :: db.revisions[r])
  }

  predicate Unsupported(db: Db, s: nat) {
    Serving(db, s) && !Served(db, s).supported
  }

  function UnsupportedIds(db: Db): set<nat> {
    set s | s in db.services && Unsupported(db, s)
  }

  function StopEach(db: Db, ids: set<nat>): Db {
    db.(services := map s | s in db.services ::
                      if s in ids then db.services[s].(status := Stopped) else db.services[s])
  }

  datatype Op =
    | CreateService(id: nat, name: string)
    | CreateRevision(id: nat, service: nat, version: string, endpoints: seq<EndpointSpec>, contractReady: bool)
    | Activate(service: nat, revision: nat)
    | Stop(service: nat)
    | Start(service: nat)
    | Delete(service: nat, activeInvocations: nat)
    | StopUnsupported

  predicate Allowed(db: Db, op: Op) {
    match op
    case CreateService(_, name) => forall s | s in db.services :: db.services[s].name != name
    case CreateRevision(_, service, version, endpoints, contractReady) =>
      && service in db.services
      && (forall r | r in db.revisions && db.revisions[r].service == service :: db.revisions[r].version != version)
      && (contractReady || forall e | e in endpoints :: e.grpc.None?)
    case Activate(s, r) => CanActivate(db, s, r)
    case Stop(s) => s in db.services && db.services[s].status == Live
    case Start(s) => CanStart(db, s)
    case Delete(s, activeInvocations) => s in db.services && db.services[s].status != Live && activeInvocations == 0
    case StopUnsupported => true
  }

  /** One call on the repository; a refused one changes nothing. */
  function Step(db: Db, op: Op): Db {
    if !Allowed(db, op) then db
    else
      match op
      case CreateService(id, name) => db.(services := db.services[id := Service(name, Registered, None)])
      case CreateRevision(id, service, version, endpoints, contractReady) =>
        db.(revisions := db.revisions[id := Revision(service, version, Ready, true, endpoints, contractReady)])
      case Activate(s, r) => Activated(db, s, r)
      case Stop(s) => WithStatus(db, s, Stopped)
      case Start(s) => WithStatus(db, s, Live)
      case Delete(s, _) => Deleted(db, s)
      case StopUnsupported => StopEach(db, UnsupportedIds(db))
  }

  /** What the callers and the store guarantee: new ids are fresh, and a published interface repeats no id and no path. */
  predicate Sane(db: Db, op: Op) {
    match op
    case CreateService(id, _) => id !in db.services
    case CreateRevision(id, _, _, endpoints, _) => id !in db.revisions && UniqueRoutes(endpoints)
    case _ => true
  }

  // ---------------------------------------------------------------- every transition keeps the invariant

  lemma NoPathsNoNames(r: Revision)
    ensures GrpcMethodPaths(r) == {} <==> GrpcServiceNames(r) == {}
  {
    forall e | e in r.endpoints && e.grpc.Some?
      ensures Path(e.grpc.value) in GrpcMethodPaths(r) && e.grpc.value.service in GrpcServiceNames(r)
    {
    }
  }

  lemma PointerKeeps(db: Db, s: nat, r: nat)
    requires RevisionsOwned(db) && PointersGood(db) && OneActive(db) && Owns(db, s, r)
    ensures RevisionsOwned(Activated(db, s, r)) && PointersGood(Activated(db, s, r)) && OneActive(Activated(db, s, r))
  {
    hide UniqueRoutes;
  }

  /** Activation leaves what every other service serves as it was. */
  lemma OthersKeepServing(db: Db, s: nat, r: nat, t: nat)
    requires RevisionsOwned(db) && PointersGood(db) && Owns(db, s, r) && t != s
    ensures Serving(Activated(db, s, r), t) == Serving(db, t)
    ensures Serving(db, t) ==> Served(Activated(db, s, r), t) == Served(db, t)
  {
  }

  lemma ActivatedKeeps(db: Db, s: nat, r: nat)
    requires Inv(db) && CanActivate(db, s, r)
    ensures Inv(Activated(db, s, r))
  {
    PointerKeeps(db, s, r);
    ActivatedApart(db, s, r);
    hide NamespacesApart, RevisionsOwned, PointersGood, OneActive, CanActivate;
    var next := Activated(db, s, r);
    assert forall x | x in next.services :: next.services[x].name == db.services[x].name;
  }

  lemma ActivatedApart(db: Db, s: nat, r: nat)
    requires RevisionsOwned(db) && PointersGood(db) && NamespacesApart(db) && CanActivate(db, s, r)
    ensures NamespacesApart(Activated(db, s, r))
  {
    hide Apart, GrpcMethodPaths, UniqueRoutes;
    var next := Activated(db, s, r);
    NoPathsApart(db.revisions[r]);
    ApartIsSymmetric();
    forall a, b | Serving(next, a) && Serving(next, b) && a != b
      ensures Apart(Served(next, a), Served(next, b))
    {
      if a != s { OthersKeepServing(db, s, r, a); }
      if b != s { OthersKeepServing(db, s, r, b); }
      SameRoutes(db.revisions[r], next.revisions[r]);
    }
  }

  lemma SameRoutes(a: Revision, b: Revision)
    requires a.endpoints == b.endpoints
    ensures forall c :: Apart(a, c) == Apart(b, c)
  {
    assert GrpcServiceNames(a) == GrpcServiceNames(b) && GrpcMethodPaths(a) == GrpcMethodPaths(b);
  }

  lemma ApartIsSymmetric()
    ensures forall a, b :: Apart(a, b) ==> Apart(b, a)
  {
  }

  lemma NoPathsApart(r: Revision)
    ensures GrpcMethodPaths(r) == {} ==> forall c :: Apart(r, c)
  {
    NoPathsNoNames(r);
  }

  predicate NothingNewServed(db: Db, next: Db) {
    forall s | s in next.services && Serving(next, s) :: Serving(db, s) && Served(next, s) == Served(db, s)
  }

  lemma StillApart(db: Db, next: Db)
    requires NamespacesApart(db) && NothingNewServed(db, next)
    ensures NamespacesApart(next)
  {
    hide Apart;
  }

  lemma StartedApart(db: Db, s: nat)
    requires NamespacesApart(db) && CanStart(db, s)
    ensures NamespacesApart(WithStatus(db, s, Live))
  {
    hide Apart;
    var next := WithStatus(db, s, Live);
    NoPathsApart(db.revisions[db.services[s].activeRevision.value]);
    ApartIsSymmetric();
    forall a, b | Serving(next, a) && Serving(next, b) && a != b
      ensures Apart(Served(next, a), Served(next, b))
    {
      assert a != s ==> Serving(db, a) && Served(db, a) == Served(next, a);
      assert b != s ==> Serving(db, b) && Served(db, b) == Served(next, b);
    }
  }

  lemma StartedKeeps(db: Db, s: nat)
    requires Inv(db) && CanStart(db, s)
    ensures Inv(WithStatus(db, s, Live))
  {
    StartedApart(db, s);
    hide NamespacesApart, RoutesFree, UniqueRoutes;
    var next := WithStatus(db, s, Live);
    assert forall x | x in next.services :: next.services[x].name == db.services[x].name;
  }

  /** Fewer services serving, and no pointer moved. */
  predicate OnlyStops(db: Db, next: Db) {
    && db.revisions == next.revisions && db.services.Keys == next.services.Keys
    && (forall s | s in db.services ::
          && next.services[s].activeRevision == db.services[s].activeRevision && next.services[s].name == db.services[s].name
          && (next.services[s].status == db.services[s].status || (next.services[s].status == Stopped && db.services[s].status == Live)))
  }

  lemma FewerServing(db: Db, next: Db)
    requires Inv(db) && OnlyStops(db, next)
    ensures Inv(next)
  {
    assert NothingNewServed(db, next);
    StillApart(db, next);
    hide NamespacesApart, UniqueRoutes, NothingNewServed;
  }

  lemma DeletedServesLess(db: Db, s: nat)
    ensures NothingNewServed(db, Deleted(db, s))
  {
  }

  lemma DeletedKeeps(db: Db, s: nat)
    requires Inv(db)
    ensures Inv(Deleted(db, s))
  {
    hide NamespacesApart, UniqueRoutes, NothingNewServed;
    var next := Deleted(db, s);
    DeletedServesLess(db, s);
    StillApart(db, next);
    assert forall t | t in next.services :: t != s && next.services[t] == db.services[t];
  }

  /** A new service serves nothing. */
  lemma ServiceAdded(db: Db, s: nat, service: Service)
    requires Inv(db) && s !in db.services && service.status == Registered && service.activeRevision.None?
    requires forall t | t in db.services :: db.services[t].name != service.name
    ensures Inv(db.(services := db.services[s := service]))
  {
    var next := db.(services := db.services[s := service]);
    assert NothingNewServed(db, next);
    StillApart(db, next);
    hide NamespacesApart, UniqueRoutes, NothingNewServed;
  }

  /** A new revision is not live yet. */
  lemma RevisionAdded(db: Db, r: nat, revision: Revision)
    requires Inv(db) && r !in db.revisions && revision.service in db.services
    requires revision.status != Active && UniqueRoutes(revision.endpoints)
    ensures Inv(db.(revisions := db.revisions[r := revision]))
  {
    hide NamespacesApart, UniqueRoutes, NothingNewServed;
    var next := db.(revisions := db.revisions[r := revision]);
    RevisionServesNothing(db, r, revision);
    StillApart(db, next);
    hide Serving;
    RevisionPointers(db, r, revision);
  }

  lemma RevisionServesNothing(db: Db, r: nat, revision: Revision)
    requires PointersGood(db) && r !in db.revisions
    ensures NothingNewServed(db, db.(revisions := db.revisions[r := revision]))
  {
    assert forall t | t in db.services && db.services[t].activeRevision.Some? :: db.services[t].activeRevision.value != r;
  }

  lemma RevisionPointers(db: Db, r: nat, revision: Revision)
    requires RevisionsOwned(db) && PointersGood(db) && OneActive(db) && r !in db.revisions
    requires revision.service in db.services && revision.status != Active && UniqueRoutes(revision.endpoints)
    ensures var next := db.(revisions := db.revisions[r := revision]);
      RevisionsOwned(next) && PointersGood(next) && OneActive(next)
  {
    hide UniqueRoutes;
  }

  // ---------------------------------------------------------------- the repository

  class ServiceRepository {
    var services: map<nat, Service>
    var revisions: map<nat, Revision>

    ghost function View(): Db
      reads this
    {
      Db(services, revisions)
    }

    ghost predicate Valid()
      reads this
    {
      Inv(View())
    }

    constructor ()
      ensures Valid() && View() == Db(map[], map[])
    {
      services, revisions := map[], map[];
    }

    /** Takes over the rows of an existing database. */
    constructor Open(services: map<nat, Service>, revisions: map<nat, Revision>)
      requires Inv(Db(services, revisions))
      ensures Valid() && View() == Db(services, revisions)
    {
      this.services, this.revisions := services, revisions;
    }

    method CreateService(id: nat, name: string) returns (r: Result<nat, Error>)
      requires Valid() && id !in services
      modifies this
      ensures Valid()
      ensures View() == Step(old(View()), Op.CreateService(id, name))
      ensures r == if exists s :: s in old(services) && old(services)[s].name == name then Err(Conflict) else Ok(id)
    {
      if s :| s in services && services[s].name == name { return Err(Conflict); }
      ServiceAdded(View(), id, Service(name, Registered, None));
      services := services[id := Service(name, Registered, None)];
      return Ok(id);
    }

    /** A published revision is ready, with the manifest's endpoints as rows; gRPC needs its contract. */
    method CreateRevision(id: nat, service: nat, version: string, endpoints: seq<EndpointSpec>, contractReady: bool)
      returns (r: Result<nat, Error>)
      requires Valid() && id !in revisions && UniqueRoutes(endpoints)
      modifies this
      ensures Valid() && services == old(services)
      ensures r.Ok? <==>
        && service in services
        && !(exists x :: x in old(revisions) && old(revisions)[x].service == service && old(revisions)[x].version == version)
        && (contractReady || forall e | e in endpoints :: e.grpc.None?)
      ensures r == Err(NotFound) <==> service !in services
      ensures View() == Step(old(View()), Op.CreateRevision(id, service, version, endpoints, contractReady))
    {
      hide Inv, UniqueRoutes;
      if service !in services { return Err(NotFound); }
      if x :| x in revisions && revisions[x].service == service && revisions[x].version == version { return Err(Conflict); }
      var hasGrpc := exists e :: e in endpoints && e.grpc.Some?;
      if hasGrpc && !contractReady { return Err(InvalidTransition); }
      var revision := Revision(service, version, Ready, true, endpoints, contractReady);
      RevisionAdded(View(), id, revision);
      revisions := revisions[id := revision];
      return Ok(id);
    }

    method ActivateRevision(service: nat, revision: nat) returns (r: Result<Revision, Error>)
      requires Valid()
      modifies this
      ensures Valid()
      ensures r.Ok? <==> CanActivate(old(View()), service, revision)
      ensures r == Err(NotFound) <==> !Owns(old(View()), service, revision)
      ensures View() == Step(old(View()), Activate(service, revision))
      ensures r.Ok? ==> revision in revisions && r.value == revisions[revision] == old(revisions)[revision].(status := Active)
    {
      hide Inv, GrpcMethodPaths, GrpcServiceNames, RoutesFree;
      if service !in services { return Err(NotFound); }
      if revision !in revisions || revisions[revision].service != service { return Err(NotFound); }
      var candidate := revisions[revision];
      if candidate.status != Ready && candidate.status != Active { return Err(InvalidTransition); }
      if !candidate.supported { return Err(InvalidTransition); }
      if GrpcMethodPaths(candidate) != {} {
        if !candidate.contractReady { return Err(InvalidTransition); }
        if services[service].status != Stopped {
          var free := GrpcRoutesAvailable(service, candidate);
          if !free { return Err(InvalidTransition); }
        }
      }
      ActivatedKeeps(View(), service, revision);
      var current := services[service].activeRevision;
      if current.Some? && current.value != revision && current.value in revisions {
        revisions := revisions[current.value := revisions[current.value].(status := Draining)];
      }
      var wasStopped := services[service].status == Stopped;
      revisions := revisions[revision := revisions[revision].(status := Active)];
      services := services[service := services[service].(activeRevision := Some(revision), status := if wasStopped then Stopped else Live)];
      return Ok(revisions[revision]);
    }

    method StopService(service: nat) returns (r: Result<Service, Error>)
      requires Valid()
      modifies this
      ensures Valid()
      ensures r.Ok? <==> service in old(services) && old(services)[service].status == Live
      ensures r == Err(NotFound) <==> service !in old(services)
      ensures View() == Step(old(View()), Stop(service))
    {
      hide Inv;
      if service !in services { return Err(NotFound); }
      if services[service].status != Live { return Err(InvalidTransition); }
      FewerServing(View(), WithStatus(View(), service, Stopped));
      services := services[service := services[service].(status := Stopped)];
      return Ok(services[service]);
    }

    /** A stopped service always still has its active revision, so only its manifest and the routes can stop it. */
    method StartService(service: nat) returns (r: Result<Service, Error>)
      requires Valid()
      modifies this
      ensures Valid()
      ensures r.Ok? <==> CanStart(old(View()), service)
      ensures r == Err(NotFound) <==> service !in old(services)
      ensures View() == Step(old(View()), Start(service))
      ensures service in old(services) && old(services)[service].status == Stopped ==>
        && old(services)[service].activeRevision.Some?
        && Owns(old(View()), service, old(services)[service].activeRevision.value)
        && old(revisions)[old(services)[service].activeRevision.value].status == Active
    {
      StoppedHasRevision(View(), service);
      hide Inv, GrpcMethodPaths, GrpcServiceNames, RoutesFree;
      if service !in services { return Err(NotFound); }
      if services[service].status != Stopped { return Err(InvalidTransition); }
      var active := services[service].activeRevision;
      if active.None? { assert false; return Err(InvalidTransition); }
      if active.value !in revisions || revisions[active.value].status != Active { assert false; return Err(InvalidTransition); }
      var revision := revisions[active.value];
      if !revision.supported { return Err(InvalidTransition); }
      if GrpcMethodPaths(revision) != {} {
        var free := GrpcRoutesAvailable(service, revision);
        if !free { return Err(InvalidTransition); }
      }
      StartedKeeps(View(), service);
      services := services[service := services[service].(status := Live)];
      return Ok(services[service]);
    }

    /** The other serving services are compared one by one. */
    method GrpcRoutesAvailable(service: nat, candidate: Revision) returns (free: bool)
      ensures free <==> RoutesFree(View(), service, candidate)
    {
      hide GrpcMethodPaths, GrpcServiceNames;
      var todo := services.Keys;
      while todo != {}
        invariant todo <= services.Keys
        invariant forall t | t in services && t !in todo && t != service && Serving(View(), t) :: Apart(candidate, Served(View(), t))
        decreases |todo|
      {
        var t :| t in todo;
        todo := todo - {t};
        if t != service && services[t].status == Live && services[t].activeRevision.Some?
          && services[t].activeRevision.value in revisions
          && revisions[services[t].activeRevision.value].status == Active
        {
          var other := revisions[services[t].activeRevision.value];
          assert Serving(View(), t) && Served(View(), t) == other;
          if !(GrpcServiceNames(candidate) !! GrpcServiceNames(other)) { return false; }
          if !(GrpcMethodPaths(candidate) !! GrpcMethodPaths(other)) { return false; }
        }
      }
      return true;
    }

    /** Only a service that is not live and has no running invocation goes, with all its revisions. */
    method DeleteService(service: nat, activeInvocations: nat) returns (r: Result<string, Error>)
      requires Valid()
      modifies this
      ensures Valid()
      ensures r.Ok? <==> service in old(services) && old(services)[service].status != Live && activeInvocations == 0
      ensures r == Err(NotFound) <==> service !in old(services)
      ensures View() == Step(old(View()), Delete(service, activeInvocations))
      ensures r.Ok? ==> r.value == old(services)[service].name
    {
      hide Inv;
      if service !in services { return Err(NotFound); }
      if services[service].status == Live { return Err(InvalidTransition); }
      if activeInvocations > 0 { return Err(InvalidTransition); }
      DeletedKeeps(View(), service);
      var name := services[service].name;
      revisions := map r | r in revisions && revisions[r].service != service :: revisions[r];
      services := services - {service};
      return Ok(name);
    }

    /** Live services whose active revision has an old specification are stopped, and no others. */
    method StopServicesWithUnsupportedInterfaces() returns (stopped: set<nat>)
      requires Valid()
      modifies this`services
      ensures Valid() && View() == Step(old(View()), StopUnsupported)
      ensures stopped == UnsupportedIds(old(View()))
      ensures forall s | s in services && Serving(View(), s) :: Served(View(), s).supported
    {
      hide Inv, StopEach, UnsupportedIds;
      ghost var db := View();
      StoppedKeeps(db);
      SupportedRemain(db);
      StopNone(db);
      var todo := services.Keys;
      stopped := {};
      while todo != {}
        invariant todo <= db.services.Keys == services.Keys && revisions == db.revisions && View() == StopEach(db, stopped)
        invariant stopped == UnsupportedIds(db) - todo
        decreases |todo|
      {
        var s :| s in todo;
        todo := todo - {s};
        StopMore(db, stopped, s);
        if services[s].status == Live && services[s].activeRevision.Some?
          && services[s].activeRevision.value in revisions
          && revisions[services[s].activeRevision.value].status == Active
          && !revisions[services[s].activeRevision.value].supported
        {
          services := services[s := services[s].(status := Stopped)];
          stopped := stopped + {s};
        }
      }
      assert stopped == UnsupportedIds(db);
    }
  }

  lemma StoppedKeeps(db: Db)
    requires Inv(db)
    ensures Inv(StopEach(db, UnsupportedIds(db)))
    ensures UnsupportedIds(db) <= db.services.Keys
  {
    hide Inv;
    assert OnlyStops(db, StopEach(db, UnsupportedIds(db)));
    FewerServing(db, StopEach(db, UnsupportedIds(db)));
  }

  lemma StopNone(db: Db)
    ensures StopEach(db, {}) == db
  {
    assert StopEach(db, {}).services == db.services;
  }

  lemma StopMore(db: Db, ids: set<nat>, s: nat)
    requires s in db.services && s !in ids
    ensures WithStatus(StopEach(db, ids), s, Stopped) == StopEach(db, ids + {s})
    ensures StopEach(db, ids).services.Keys == db.services.Keys && StopEach(db, ids).services[s] == db.services[s]
    ensures StopEach(db, ids).revisions == db.revisions
    ensures s in UnsupportedIds(db) <==> Unsupported(db, s)
  {
  }

  lemma SupportedRemain(db: Db)
    ensures var next := StopEach(db, UnsupportedIds(db));
      forall s | s in next.services && Serving(next, s) :: Served(next, s).supported
  {
  }

  lemma StoppedHasRevision(db: Db, s: nat)
    requires Inv(db)
    ensures s in db.services && db.services[s].status == Stopped ==>
      && db.services[s].activeRevision.Some? && Owns(db, s, db.services[s].activeRevision.value)
      && db.revisions[db.services[s].activeRevision.value].status == Active
  {
  }
}
