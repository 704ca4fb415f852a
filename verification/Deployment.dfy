/** When a service starts and stops serving, which revision it serves, and that a rollout only goes forward. */
module Deployment {
  import opened Prelude
  import opened Activation

  // ---------------------------------------------------------------- who serves what

  /** Two gRPC methods that one server could not tell apart, or that belong to one protobuf service. */
  predicate Collide(a: GrpcTarget, b: GrpcTarget) {
    a.service == b.service || "/" + a.service + "/" + a.name == "/" + b.service + "/" + b.name
  }

  predicate Collision(a: Revision, b: Revision) {
    exists e, f :: e in a.endpoints && f in b.endpoints && e.grpc.Some? && f.grpc.Some? && Collide(e.grpc.value, f.grpc.value)
  }

  /** No service that serves next to s has a gRPC method in common with the revision. */
  predicate NoRival(db: Db, s: nat, r: Revision) {
    forall t | t in db.services && t != s && Serving(db, t) :: !Collision(r, Served(db, t))
  }

  predicate HasGrpc(r: Revision) {
    exists e :: e in r.endpoints && e.grpc.Some?
  }

  /** A revision of the service, published and not yet replaced, of the current specification, with its contract if it needs one. */
  predicate Deployable(db: Db, s: nat, r: nat) {
    && s in db.services && r in db.revisions && db.revisions[r].service == s
    && (db.revisions[r].status == Ready || db.revisions[r].status == Active)
    && db.revisions[r].supported && (HasGrpc(db.revisions[r]) ==> db.revisions[r].contractReady)
  }

  predicate Serves(db: Db, s: nat, r: nat) {
    Serving(db, s) && db.services[s].activeRevision == Some(r)
  }

  lemma CollisionExactly(a: Revision, b: Revision)
    ensures Apart(a, b) <==> !Collision(a, b)
  {
    if Collision(a, b) {
      var e, f :| e in a.endpoints && f in b.endpoints && e.grpc.Some? && f.grpc.Some? && Collide(e.grpc.value, f.grpc.value);
      assert e.grpc.value.service in GrpcServiceNames(a) && f.grpc.value.service in GrpcServiceNames(b);
      assert Path(e.grpc.value) in GrpcMethodPaths(a) && Path(f.grpc.value) in GrpcMethodPaths(b);
    }
  }

  lemma RivalExactly(db: Db, s: nat, r: Revision)
    ensures RoutesFree(db, s, r) <==> NoRival(db, s, r)
  {
    forall t | Serving(db, t) ensures Apart(r, Served(db, t)) <==> !Collision(r, Served(db, t)) {
      CollisionExactly(r, Served(db, t));
    }
    hide Apart, Collision;
  }

  lemma HasGrpcExactly(r: Revision)
    ensures HasGrpc(r) <==> GrpcMethodPaths(r) != {}
  {
    assert forall e | e in r.endpoints && e.grpc.Some? :: Path(e.grpc.value) in GrpcMethodPaths(r);
  }

  lemma NoGrpcNoRival(db: Db, s: nat, r: Revision)
    requires !HasGrpc(r)
    ensures NoRival(db, s, r)
  {
  }

  lemma DeployableExactly(db: Db, s: nat, r: nat)
    ensures CanActivate(db, s, r) <==> Deployable(db, s, r) && (db.services[s].status != Stopped ==> NoRival(db, s, db.revisions[r]))
  {
    if r in db.revisions {
      HasGrpcExactly(db.revisions[r]);
      RivalExactly(db, s, db.revisions[r]);
      if !HasGrpc(db.revisions[r]) { NoGrpcNoRival(db, s, db.revisions[r]); }
    }
    hide GrpcMethodPaths, RoutesFree, NoRival, HasGrpc;
  }

  lemma StartableExactly(db: Db, s: nat, r: nat)
    requires Inv(db) && s in db.services && db.services[s].activeRevision == Some(r)
    ensures CanStart(db, s) <==> db.services[s].status == Stopped && db.revisions[r].supported && NoRival(db, s, db.revisions[r])
  {
    HasGrpcExactly(db.revisions[r]);
    RivalExactly(db, s, db.revisions[r]);
    if !HasGrpc(db.revisions[r]) { NoGrpcNoRival(db, s, db.revisions[r]); }
    hide GrpcMethodPaths, RoutesFree, NoRival, HasGrpc;
  }

  /** A service begins to serve a revision by its activation, unless the service is stopped, or by a start, unless its interface is outdated; a rival prevents both. */
  lemma BeginsServingExactly(db: Db, op: Op, s: nat, r: nat)
    requires Inv(db) && Sane(db, op) && !Serves(db, s, r)
    ensures Serves(Step(db, op), s, r) <==>
      || (op == Activate(s, r) && Deployable(db, s, r) && db.services[s].status != Stopped && NoRival(db, s, db.revisions[r]))
      || (op == Start(s) && s in db.services && db.services[s].status == Stopped && db.services[s].activeRevision == Some(r)
          && db.revisions[r].supported && NoRival(db, s, db.revisions[r]))
  {
    if s in db.services && db.services[s].activeRevision.Some? { ActivePointer(db, s); }
    if op == Activate(s, r) {
      DeployableExactly(db, s, r);
      hide CanActivate, Deployable, NoRival;
    } else if op == Start(s) {
      if s in db.services && db.services[s].activeRevision == Some(r) { StartableExactly(db, s, r); }
      hide CanStart, NoRival;
    } else {
      OthersBeginNothing(db, op, s, r);
    }
  }

  lemma ActivePointer(db: Db, s: nat)
    requires Inv(db) && s in db.services && db.services[s].activeRevision.Some?
    ensures var r := db.services[s].activeRevision.value;
      r in db.revisions && db.revisions[r].service == s && db.revisions[r].status == Active
  {
  }

  lemma OthersBeginNothing(db: Db, op: Op, s: nat, r: nat)
    requires Inv(db) && Sane(db, op) && !Serves(db, s, r) && op != Activate(s, r) && op != Start(s)
    ensures !Serves(Step(db, op), s, r)
  {
    hide NamespacesApart, NamesUnique, CanActivate, CanStart, UniqueRoutes;
  }

  /** A service stops serving a revision by a stop, by the activation of another one, or because the interface is outdated. */
  lemma StopsServingExactly(db: Db, op: Op, s: nat, r: nat)
    requires Inv(db) && Sane(db, op) && Serves(db, s, r)
    ensures !Serves(Step(db, op), s, r) <==>
      || op == Stop(s)
      || (op == StopUnsupported && !db.revisions[r].supported)
      || (op.Activate? && op.service == s && op.revision != r
          && Deployable(db, s, op.revision) && NoRival(db, s, db.revisions[op.revision]))
  {
    ActivePointer(db, s);
    if op.Activate? && op.service == s {
      DeployableExactly(db, s, op.revision);
      hide CanActivate, Deployable, NoRival;
    } else {
      OthersStopNothing(db, op, s, r);
    }
  }

  lemma OthersStopNothing(db: Db, op: Op, s: nat, r: nat)
    requires Inv(db) && Sane(db, op) && Serves(db, s, r) && !(op.Activate? && op.service == s)
    ensures !Serves(Step(db, op), s, r) <==> op == Stop(s) || (op == StopUnsupported && !db.revisions[r].supported)
  {
    if op.Activate? && CanActivate(db, op.service, op.revision) { OthersKeepServing(db, op.service, op.revision, s); }
    hide NamespacesApart, NamesUnique, CanActivate, CanStart, UniqueRoutes;
  }

  // ---------------------------------------------------------------- the life of a revision

  /** The activation goes through; a stopped service may activate a revision that has a rival. */
  predicate Activates(db: Db, op: Op) {
    && op.Activate? && Deployable(db, op.service, op.revision)
    && (db.services[op.service].status == Stopped || NoRival(db, op.service, db.revisions[op.revision]))
  }

  function StatusAfter(db: Db, op: Op, x: nat): RevisionStatus
    requires x in db.revisions
  {
    if !Activates(db, op) then db.revisions[x].status
    else if op.revision == x then Active
    else if op.service == db.revisions[x].service && db.revisions[x].status == Active then Draining
    else db.revisions[x].status
  }

  /** A revision goes with its service; until then only its status moves: to ACTIVE when it is activated, and from there to DRAINING when another one is. */
  lemma RevisionStepExactly(db: Db, op: Op, x: nat)
    requires Inv(db) && Sane(db, op) && x in db.revisions
    ensures var w, next := db.revisions[x], Step(db, op);
      && (x !in next.revisions <==>
            op.Delete? && op.service == w.service && db.services[w.service].status != Live && op.activeInvocations == 0)
      && (x in next.revisions ==> next.revisions[x] == w.(status := StatusAfter(db, op, x)))
  {
    OwnerExists(db, x);
    if op.Activate? {
      DeployableExactly(db, op.service, op.revision);
      if Activates(db, op) { ActivatedStatus(db, op.service, op.revision, x); }
      hide Inv, Activated, CanActivate, Deployable, NoRival;
    } else {
      hide Inv, CanStart, UniqueRoutes;
    }
  }

  /** A service keeps its name, and only an activation moves its pointer; a stop or a start does not. */
  lemma ServiceStepExactly(db: Db, op: Op, s: nat)
    requires Inv(db) && Sane(db, op) && s in db.services
    ensures var w, next := db.services[s], Step(db, op);
      && (s !in next.services <==> op.Delete? && op.service == s && w.status != Live && op.activeInvocations == 0)
      && (s in next.services ==>
            && next.services[s].name == w.name
            && next.services[s].activeRevision == if Activates(db, op) && op.service == s then Some(op.revision) else w.activeRevision)
  {
    if op.Activate? {
      DeployableExactly(db, op.service, op.revision);
      hide Inv, CanActivate, Deployable, NoRival;
    } else {
      hide Inv, CanStart, UniqueRoutes;
    }
  }

  lemma OwnerExists(db: Db, x: nat)
    requires Inv(db) && x in db.revisions
    ensures db.revisions[x].service in db.services
  {
  }

  lemma ActivatedStatus(db: Db, s: nat, r: nat, x: nat)
    requires Inv(db) && Owns(db, s, r) && x in db.revisions
    ensures var w := db.revisions[x];
      x in Activated(db, s, r).revisions && Activated(db, s, r).revisions[x] ==
        if x == r then w.(status := Active) else if w.service == s && w.status == Active then w.(status := Draining) else w
  {
    hide NamespacesApart, NamesUnique, UniqueRoutes;
  }

  lemma StepKeeps(db: Db, op: Op)
    requires Inv(db) && Sane(db, op)
    ensures Inv(Step(db, op))
  {
    hide Inv, Activated, WithStatus, Deleted, StopEach, UnsupportedIds, UniqueRoutes;
    if Allowed(db, op) {
      match op
      case CreateService(id, name) => ServiceAdded(db, id, Service(name, Registered, None));
      case CreateRevision(id, service, version, endpoints, ready) =>
        RevisionAdded(db, id, Revision(service, version, Ready, true, endpoints, ready));
      case Activate(s, r) => ActivatedKeeps(db, s, r);
      case Stop(s) => StoppedOnly(db, s);
      case Start(s) => StartedKeeps(db, s);
      case Delete(s, _) => DeletedKeeps(db, s);
      case StopUnsupported => StoppedKeeps(db);
    }
  }

  lemma StoppedOnly(db: Db, s: nat)
    requires Inv(db) && s in db.services && db.services[s].status == Live
    ensures Inv(WithStatus(db, s, Stopped))
  {
    hide Inv;
    FewerServing(db, WithStatus(db, s, Stopped));
  }

  predicate SaneRun(db: Db, ops: seq<Op>)
    decreases |ops|
  {
    ops == [] || (Sane(db, ops[0]) && SaneRun(Step(db, ops[0]), ops[1..]))
  }

  function Run(db: Db, ops: seq<Op>): Db
    decreases |ops|
  {
    if ops == [] then db else Run(Step(db, ops[0]), ops[1..])
  }

  /** Once a revision is draining, failed or retired it stays as it is until its service is deleted, so it never serves again. */
  lemma {:induction false} NeverServesAgain(db: Db, ops: seq<Op>, x: nat)
    requires Inv(db) && SaneRun(db, ops) && x in db.revisions && db.revisions[x].status in {Building, Draining, Retired, Failed}
    requires forall o | o in ops :: !(o.CreateRevision? && o.id == x)
    ensures var end := Run(db, ops);
      && Inv(end) && (x in end.revisions ==> end.revisions[x] == db.revisions[x])
      && forall s :: !Serves(end, s, x)
    decreases |ops|
  {
    hide Inv, Step, Sane;
    if ops == [] {
      NotActiveServesNothing(db, x);
    } else {
      assert ops == [ops[0]] + ops[1..];
      StepKeeps(db, ops[0]);
      RevisionStepExactly(db, ops[0], x);
      var next := Step(db, ops[0]);
      if x in next.revisions {
        NeverServesAgain(next, ops[1..], x);
      } else {
        StaysDeleted(next, ops[1..], x);
      }
    }
  }

  lemma NotActiveServesNothing(db: Db, x: nat)
    requires x in db.revisions ==> db.revisions[x].status != Active
    ensures forall s :: !Serves(db, s, x)
  {
  }

  lemma {:induction false} StaysDeleted(db: Db, ops: seq<Op>, x: nat)
    requires Inv(db) && SaneRun(db, ops) && x !in db.revisions
    requires forall o | o in ops :: !(o.CreateRevision? && o.id == x)
    ensures Inv(Run(db, ops)) && x !in Run(db, ops).revisions && forall s :: !Serves(Run(db, ops), s, x)
    decreases |ops|
  {
    hide Inv, Step, Sane;
    if ops == [] {
      NotActiveServesNothing(db, x);
    } else {
      assert ops == [ops[0]] + ops[1..];
      StepKeeps(db, ops[0]);
      NotCreated(db, ops[0], x);
      StaysDeleted(Step(db, ops[0]), ops[1..], x);
    }
  }

  lemma NotCreated(db: Db, op: Op, x: nat)
    requires x !in db.revisions && !(op.CreateRevision? && op.id == x)
    ensures x !in Step(db, op).revisions
  {
    hide RoutesFree, GrpcMethodPaths;
  }
}
