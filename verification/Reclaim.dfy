/** Killing shared actors while any number of callers keep using them. */
module Reclaim {
  import opened Prelude
  import A = Admission

  /** What a reclaiming task knows of one actor: was it asked to drain, and what did the current poll say. */
  datatype Target = Target(asked: bool, empty: Option<bool>)

  /** A reaper works on one candidate; a retirement on every actor of a profile. */
  datatype Task = Task(retiring: bool, targets: map<nat, Target>)

  /** Actors are named by handle; `seen` holds every handle ever created. */
  datatype Pool = Pool(actors: map<nat, A.Book>, seen: set<nat>, tasks: map<nat, Task>)

  /** One atomic event: a remote call reaching an actor, or a local decision of one task. */
  datatype Event =
    | Create(a: nat, maxIo: nat, ttl: real, clock: real)
    | Call(a: nat, op: A.Op)
    | Die(a: nat)
    | BeginReap(t: nat, a: nat, now: real, clock: real)
    | BeginRetire(t: nat, handles: set<nat>)
    | Drain(t: nat, a: nat, arrived: bool)
    | Poll(t: nat, a: nat, now: real, clock: real)
    | NextRound(t: nat)
    | Kill(t: nat, a: nat)
    | Abandon(t: nat)

  function CallActor(p: Pool, a: nat, op: A.Op): Pool {
    if a in p.actors then p.(actors := p.actors[a := A.Step(p.actors[a], op)]) else p
  }

  function SetTarget(p: Pool, t: nat, a: nat, target: Target): Pool
    requires t in p.tasks
  {
    p.(tasks := p.tasks[t := p.tasks[t].(targets := p.tasks[t].targets[a := target])])
  }

  predicate IsTarget(p: Pool, t: nat, a: nat) {
    t in p.tasks && a in p.tasks[t].targets
  }

  predicate AllAsked(task: Task) {
    forall a | a in task.targets :: task.targets[a].asked
  }

  predicate AllEmpty(task: Task) {
    forall a | a in task.targets :: task.targets[a].empty == Some(true)
  }

  predicate AllPolled(task: Task) {
    forall a | a in task.targets :: task.targets[a].empty.Some?
  }

  predicate ReadyToKill(p: Pool, t: nat, a: nat) {
    IsTarget(p, t, a) && AllEmpty(p.tasks[t])
  }

  predicate Enabled(p: Pool, e: Event) {
    match e
    case Create(a, maxIo, ttl, _) => a !in p.seen && maxIo >= 1 && ttl > 0.0
    case Call(a, op) => a in p.actors && A.Enabled(p.actors[a], op)
    case Die(a) => a in p.actors
    // the reaper starts from a status that showed an idle or a drained and empty actor
    case BeginReap(t, a, now, clock) =>
      t !in p.tasks && a in p.actors && A.Step(p.actors[a], A.Status(now, clock)).state.leases == map[]
    case BeginRetire(t, handles) => t !in p.tasks && handles <= p.seen
    // a reaper gives up when its drain call fails; a retirement carries on
    case Drain(t, a, arrived) =>
      IsTarget(p, t, a) && !p.tasks[t].targets[a].asked && (p.tasks[t].retiring || (arrived && a in p.actors))
    // an actor that died does not hold up a retirement
    case Poll(t, a, _, _) =>
      IsTarget(p, t, a) && AllAsked(p.tasks[t]) && p.tasks[t].targets[a].empty.None? && (p.tasks[t].retiring || a in p.actors)
    case NextRound(t) => t in p.tasks && p.tasks[t].retiring && AllPolled(p.tasks[t]) && !AllEmpty(p.tasks[t])
    case Kill(t, a) => ReadyToKill(p, t, a)
    case Abandon(t) => t in p.tasks
  }

  function Polled(p: Pool, t: nat, a: nat): Pool
    requires IsTarget(p, t, a)
  {
    var empty := a !in p.actors || p.actors[a].state.leases == map[];
    SetTarget(p, t, a, p.tasks[t].targets[a].(empty := Some(empty)))
  }

  function Next(p: Pool, e: Event): Pool
    requires Enabled(p, e)
  {
    match e
    case Create(a, maxIo, ttl, clock) => p.(actors := p.actors[a := A.Initial(maxIo, ttl, clock)], seen := p.seen + {a})
    case Call(a, op) => CallActor(p, a, op)
    case Die(a) => p.(actors := p.actors - {a})
    case BeginReap(t, a, now, clock) =>
      var q := CallActor(p, a, A.Status(now, clock));
      q.(tasks := q.tasks[t := Task(false, map[a := Target(q.actors[a].state.draining, None)])])
    case BeginRetire(t, handles) => p.(tasks := p.tasks[t := Task(true, map a | a in handles :: Target(false, None))])
    case Drain(t, a, arrived) =>
      var q := if arrived then CallActor(p, a, A.Drain) else p;
      SetTarget(q, t, a, Target(true, None))
    case Poll(t, a, now, clock) => Polled(CallActor(p, a, A.Status(now, clock)), t, a)
    case NextRound(t) => p.(tasks := p.tasks[t := Task(true, map a | a in p.tasks[t].targets :: Target(true, None))])
    case Kill(t, a) =>
      p.(actors := p.actors - {a}, tasks := p.tasks[t := p.tasks[t].(targets := p.tasks[t].targets - {a})])
    case Abandon(t) => p.(tasks := p.tasks - {t})
  }

  /** The leases that die with the actor an event kills. */
  function KilledLeases(p: Pool, e: Event): set<string> {
    if e.Kill? && e.a in p.actors then A.Held(p.actors[e.a]) else {}
  }

  predicate ValidRun(p: Pool, es: seq<Event>)
    decreases |es|
  {
    es == [] || (Enabled(p, es[0]) && ValidRun(Next(p, es[0]), es[1..]))
  }

  predicate KillsNoLease(p: Pool, es: seq<Event>)
    requires ValidRun(p, es)
    decreases |es|
  {
    es == [] || (KilledLeases(p, es[0]) == {} && KillsNoLease(Next(p, es[0]), es[1..]))
  }

  const EMPTY_POOL := Pool(map[], {}, map[])

  /** Every drain call of the run reached its actor. */
  predicate DrainsArrive(es: seq<Event>) {
    forall i | 0 <= i < |es| && es[i].Drain? :: es[i].arrived
  }

  // ---------------------------------------------------------------- the invariant

  ghost predicate Known(p: Pool) {
    && p.actors.Keys <= p.seen
    && (forall t, a | IsTarget(p, t, a) :: a in p.seen)
  }

  /** An actor that was asked to drain is closed, and once seen empty it stays empty. */
  predicate TargetOk(b: A.Book, target: Target) {
    && (target.asked ==> b.state.draining)
    && (target.empty.Some? ==> target.asked)
    && (target.empty == Some(true) ==> b.state.leases == map[])
  }

  ghost predicate Closed(p: Pool) {
    forall t, a | IsTarget(p, t, a) && a in p.actors :: TargetOk(p.actors[a], p.tasks[t].targets[a])
  }

  lemma NoLeases(b: A.Book)
    ensures A.Held(b) == {} <==> b.state.leases == map[]
  {
    assert b.state.leases == map[] <==> b.state.leases.Keys == {};
  }

  lemma OpKeepsTarget(b: A.Book, op: A.Op, target: Target)
    requires TargetOk(b, target)
    ensures TargetOk(A.Step(b, op), target)
  {
    NoLeases(b);
    NoLeases(A.Step(b, op));
    if b.state.draining {
      A.DrainedOnlyShrinks(b, op);
    } else {
      assert !target.asked;
    }
  }

  lemma CallKeeps(p: Pool, a: nat, op: A.Op)
    requires Known(p) && Closed(p)
    ensures Known(CallActor(p, a, op)) && Closed(CallActor(p, a, op))
    ensures CallActor(p, a, op).tasks == p.tasks && CallActor(p, a, op).actors.Keys == p.actors.Keys
  {
    var q := CallActor(p, a, op);
    forall t, x | IsTarget(q, t, x)
      ensures x in q.seen && (x in q.actors ==> TargetOk(q.actors[x], q.tasks[t].targets[x]))
    {
      assert IsTarget(p, t, x);
      if x in q.actors {
        OpKeepsTarget(p.actors[x], op, p.tasks[t].targets[x]);
      }
    }
  }

  lemma SetKeeps(p: Pool, t: nat, a: nat, target: Target)
    requires Known(p) && Closed(p) && IsTarget(p, t, a)
    requires a in p.actors ==> TargetOk(p.actors[a], target)
    ensures Known(SetTarget(p, t, a, target)) && Closed(SetTarget(p, t, a, target))
  {
    var q := SetTarget(p, t, a, target);
    forall u, x | IsTarget(q, u, x)
      ensures x in q.seen && (x in q.actors ==> TargetOk(q.actors[x], q.tasks[u].targets[x]))
    {
      if u != t || x != a { assert IsTarget(p, u, x) && q.tasks[u].targets[x] == p.tasks[u].targets[x]; }
    }
  }

  lemma StepKeeps(p: Pool, e: Event)
    requires Known(p) && Closed(p) && Enabled(p, e) && (e.Drain? ==> e.arrived)
    ensures Known(Next(p, e)) && Closed(Next(p, e))
  {
    var q := Next(p, e);
    match e
    case Call(a, op) => CallKeeps(p, a, op);
    case BeginReap(t, a, now, clock) =>
      CallKeeps(p, a, A.Status(now, clock));
      NewTaskKeeps(CallActor(p, a, A.Status(now, clock)), t, q.tasks[t]);
    case BeginRetire(t, handles) => NewTaskKeeps(p, t, q.tasks[t]);
    case Drain(t, a, arrived) =>
      CallKeeps(p, a, A.Drain);
      SetKeeps(CallActor(p, a, A.Drain), t, a, Target(true, None));
    case Poll(t, a, now, clock) =>
      CallKeeps(p, a, A.Status(now, clock));
      var r := CallActor(p, a, A.Status(now, clock));
      assert IsTarget(r, t, a);
      SetKeeps(r, t, a, r.tasks[t].targets[a].(empty := Some(a !in r.actors || r.actors[a].state.leases == map[])));
    case NextRound(t) =>
      assert forall a | a in p.tasks[t].targets :: IsTarget(p, t, a);
      NewTaskKeeps(p, t, q.tasks[t]);
    case Create(_, _, _, _) => FewerKeeps(p, q);
    case Die(_) => FewerKeeps(p, q);
    case Kill(_, _) => FewerKeeps(p, q);
    case Abandon(_) => FewerKeeps(p, q);
  }

  lemma NewTaskKeeps(p: Pool, t: nat, task: Task)
    requires Known(p) && Closed(p)
    requires forall a | a in task.targets :: a in p.seen && (a in p.actors ==> TargetOk(p.actors[a], task.targets[a]))
    ensures Known(p.(tasks := p.tasks[t := task])) && Closed(p.(tasks := p.tasks[t := task]))
  {
    var q := p.(tasks := p.tasks[t := task]);
    forall u, x | IsTarget(q, u, x)
      ensures x in q.seen && (x in q.actors ==> TargetOk(q.actors[x], q.tasks[u].targets[x]))
    {
      if u != t { assert IsTarget(p, u, x); }
    }
  }

  /** Dropping actors, targets and tasks, or adding an actor nobody has seen, keeps the invariant. */
  lemma FewerKeeps(p: Pool, q: Pool)
    requires Known(p) && Closed(p) && p.seen <= q.seen && q.actors.Keys <= q.seen
    requires forall a | a in q.actors && a in p.seen :: a in p.actors && q.actors[a] == p.actors[a]
    requires forall t, a | IsTarget(q, t, a) :: IsTarget(p, t, a) && q.tasks[t].targets[a] == p.tasks[t].targets[a]
    ensures Known(q) && Closed(q)
  {
  }

  lemma {:induction false} RunIsSafe(p: Pool, es: seq<Event>)
    requires Known(p) && Closed(p) && ValidRun(p, es) && DrainsArrive(es)
    ensures KillsNoLease(p, es)
    decreases |es|
  {
    hide Known, Closed, Enabled, Next;
    if es != [] {
      KillIsSafe(p, es[0]);
      StepKeeps(p, es[0]);
      assert forall i | 0 <= i < |es[1..]| :: es[1..][i] == es[i + 1];
      RunIsSafe(Next(p, es[0]), es[1..]);
    }
  }

  lemma KillIsSafe(p: Pool, e: Event)
    requires Closed(p) && Enabled(p, e)
    ensures KilledLeases(p, e) == {}
  {
    if e.Kill? && e.a in p.actors {
      assert TargetOk(p.actors[e.a], p.tasks[e.t].targets[e.a]);
      NoLeases(p.actors[e.a]);
    }
  }

  /** However callers, reapers and retirements interleave, no lease is killed if every drain call arrived. */
  lemma NoLeaseIsKilled(es: seq<Event>)
    requires ValidRun(EMPTY_POOL, es) && DrainsArrive(es)
    ensures KillsNoLease(EMPTY_POOL, es)
  {
    RunIsSafe(EMPTY_POOL, es);
  }

  // ---------------------------------------------------------------- a lost drain call

  /** Whatever callers do before the kill, the actor holds no lease then. */
  ghost predicate StaysEmpty(b: A.Book) {
    forall ops | A.ValidRun(b, ops) :: A.Held(A.Run(b, ops)) == {}
  }

  lemma {:induction false} ClosedStaysEmpty(b: A.Book, ops: seq<A.Op>)
    requires b.state.draining && b.state.leases == map[]
    ensures A.Held(A.Run(b, ops)) == {}
    decreases |ops|
  {
    NoLeases(b);
    if ops != [] {
      A.DrainedOnlyShrinks(b, ops[0]);
      NoLeases(A.Step(b, ops[0]));
      ClosedStaysEmpty(A.Step(b, ops[0]), ops[1..]);
    }
  }

  lemma OpenActorGrants(b: A.Book, id: string, requestId: string)
    requires A.Inv(b) && b.state.maxIo >= 1 && !b.state.draining && b.state.leases == map[] && id !in b.granted
    ensures var op := A.TryReserve(requestId, true, "", "", 0.0, 0.0, id);
      A.ValidRun(b, [op]) && id in A.Held(A.Run(b, [op]))
  {
    var op := A.TryReserve(requestId, true, "", "", 0.0, 0.0, id);
    A.ExpireKeeps(b, 0.0, 0.0);
    assert A.ExpiredIds(b.state, 0.0) == {};
    var e := A.ExpireBook(b, 0.0, 0.0);
    assert e.state.activeIo == 0;
    assert id in A.Held(A.Step(b, op));
    assert A.Run(b, [op]) == A.Run(A.Step(b, op), [op][1..]);
    assert [op][1..] == [];
  }

  lemma FreshId(used: set<string>) returns (id: string)
    ensures id !in used
  {
    id := Longer(used);
  }

  /** A string longer than all of a finite set. */
  ghost function Longer(used: set<string>): (id: string)
    ensures forall u | u in used :: |u| < |id|
  {
    if used == {} then "x"
    else
      var u :| u in used;
      var rest := Longer(used - {u});
      var longer := if |u| < |rest| then rest else u + "x";
      assert forall v | v in used :: v == u || v in used - {u};
      longer
  }

  lemma StaysEmptyExactly(b: A.Book)
    requires A.Inv(b) && b.state.maxIo >= 1
    ensures StaysEmpty(b) <==> b.state.draining && b.state.leases == map[]
  {
    NoLeases(b);
    if b.state.draining && b.state.leases == map[] {
      forall ops | A.ValidRun(b, ops) ensures A.Held(A.Run(b, ops)) == {} { ClosedStaysEmpty(b, ops); }
    } else if b.state.leases != map[] {
      assert A.ValidRun(b, []) && A.Held(A.Run(b, [])) == A.Held(b);
    } else {
      var id := FreshId(b.granted);
      OpenActorGrants(b, id, "");
    }
  }

  ghost predicate ActorsSound(p: Pool) {
    forall a | a in p.actors :: A.Inv(p.actors[a]) && p.actors[a].state.maxIo >= 1
  }

  lemma CallKeepsSound(p: Pool, a: nat, op: A.Op)
    requires ActorsSound(p) && (a in p.actors ==> A.Enabled(p.actors[a], op))
    ensures ActorsSound(CallActor(p, a, op))
  {
    hide A.Inv, A.Enabled;
    if a in p.actors {
      A.StepKeeps(p.actors[a], op);
      assert A.Run(p.actors[a], [op]) == A.Step(p.actors[a], op) by { assert [op][1..] == []; }
      A.MaxIoStays(p.actors[a], [op]);
    }
  }

  lemma {:induction false} ReachableActorsSound(p: Pool, es: seq<Event>)
    requires ActorsSound(p) && ValidRun(p, es)
    ensures ActorsSound(End(p, es))
    decreases |es|
  {
    hide A.Inv, A.Step;
    if es != [] {
      match es[0] {
        case Call(a, op) => CallKeepsSound(p, a, op);
        case BeginReap(t, a, now, clock) => CallKeepsSound(p, a, A.Status(now, clock));
        case Drain(t, a, arrived) => CallKeepsSound(p, a, A.Drain);
        case Poll(t, a, now, clock) => CallKeepsSound(p, a, A.Status(now, clock));
        case Create(a, maxIo, ttl, clock) => StartsSound(maxIo, ttl, clock);
        case _ =>
      }
      ReachableActorsSound(Next(p, es[0]), es[1..]);
    }
  }

  lemma StartsSound(maxIo: nat, ttl: real, clock: real)
    ensures A.Inv(A.Initial(maxIo, ttl, clock))
  {
  }

  function End(p: Pool, es: seq<Event>): Pool
    requires ValidRun(p, es)
    decreases |es|
  {
    if es == [] then p else End(Next(p, es[0]), es[1..])
  }

  /** In any reachable pool, a task about to kill can hit a lease exactly when its target is not both closed and empty. */
  lemma KillIsSafeExactly(es: seq<Event>, p: Pool, t: nat, a: nat)
    requires ValidRun(EMPTY_POOL, es) && p == End(EMPTY_POOL, es)
    requires ReadyToKill(p, t, a) && a in p.actors
    ensures StaysEmpty(p.actors[a]) <==> p.actors[a].state.draining && p.actors[a].state.leases == map[]
  {
    hide A.Inv, StaysEmpty, ReadyToKill, Next, Enabled;
    ReachableActorsSound(EMPTY_POOL, es);
    StaysEmptyExactly(p.actors[a]);
  }

  /** A retirement swallows a failed drain call and sees the actor empty; a caller reserves before the kill. */
  function LostDrain(): seq<Event> {
    [Create(0, 1, 30.0, 0.0), BeginRetire(0, {0}), Drain(0, 0, false), Poll(0, 0, 1.0, 1.0),
     Call(0, A.TryReserve("request", true, "service", "revision", 1.0, 1.0, "lease")), Kill(0, 0)]
  }

  /** One idle actor, and a retirement that knows so much of it. */
  function Retirement(target: Target): Pool {
    Pool(map[0 := A.Initial(1, 30.0, 0.0)], {0}, map[0 := Task(true, map[0 := target])])
  }

  lemma LostDrainStarts()
    ensures var es := LostDrain();
      && Enabled(EMPTY_POOL, es[0]) && Enabled(Next(EMPTY_POOL, es[0]), es[1])
      && Next(Next(EMPTY_POOL, es[0]), es[1]) == Retirement(Target(false, None))
  {
    var es := LostDrain();
    var p2 := Next(Next(EMPTY_POOL, es[0]), es[1]);
    assert p2.tasks[0].targets == map[0 := Target(false, None)];
  }

  lemma LostDrainIsSeenEmpty()
    ensures var es := LostDrain();
      && Enabled(Retirement(Target(false, None)), es[2])
      && Next(Retirement(Target(false, None)), es[2]) == Retirement(Target(true, None))
      && Enabled(Retirement(Target(true, None)), es[3])
      && Next(Retirement(Target(true, None)), es[3]) == Retirement(Target(true, Some(true)))
  {
    var idle := A.Initial(1, 30.0, 0.0);
    var asked := Retirement(Target(true, None));
    SetOnly(Retirement(Target(false, None)), Target(false, None), Target(true, None));
    assert A.Step(idle, A.Status(1.0, 1.0)) == idle;
    assert map[0 := idle][0 := idle] == map[0 := idle];
    assert CallActor(asked, 0, A.Status(1.0, 1.0)) == asked;
    SetOnly(asked, Target(true, None), Target(true, Some(true)));
  }

  lemma LostDrainEnds()
    ensures var es, ready := LostDrain(), Retirement(Target(true, Some(true)));
      && Enabled(ready, es[4]) && Enabled(Next(ready, es[4]), es[5])
      && KilledLeases(Next(ready, es[4]), es[5]) != {}
  {
    var p5 := Next(Retirement(Target(true, Some(true))), LostDrain()[4]);
    assert "lease" in A.Held(p5.actors[0]);
  }

  /** So the assumption that drain calls arrive cannot be dropped. */
  lemma LostDrainKillsLease()
    ensures ValidRun(EMPTY_POOL, LostDrain()) && !KillsNoLease(EMPTY_POOL, LostDrain())
  {
    hide ValidRun, KillsNoLease, KilledLeases, Enabled, Next, Retirement;
    LostDrainStarts();
    LostDrainIsSeenEmpty();
    LostDrainEnds();
    var es := LostDrain();
    var ready := Retirement(Target(true, Some(true)));
    var p5 := Next(ready, es[4]);
    NothingLeft(Next(p5, es[5]), es);
    Unfold(p5, es, 5);
    Unfold(ready, es, 4);
    Unfold(Retirement(Target(true, None)), es, 3);
    Unfold(Retirement(Target(false, None)), es, 2);
    Unfold(Next(EMPTY_POOL, es[0]), es, 1);
    Unfold(EMPTY_POOL, es, 0);
    assert es[0..] == es;
  }

  lemma NothingLeft(p: Pool, es: seq<Event>)
    requires |es| == 6
    ensures ValidRun(p, es[6..]) && KillsNoLease(p, es[6..])
  {
  }

  lemma SetOnly(p: Pool, before: Target, after: Target)
    requires p.tasks == map[0 := Task(true, map[0 := before])]
    ensures SetTarget(p, 0, 0, after).tasks == map[0 := Task(true, map[0 := after])]
  {
    assert map[0 := before][0 := after] == map[0 := after];
  }

  /** One event of a run, read at position i. */
  lemma Unfold(p: Pool, es: seq<Event>, i: nat)
    requires i < |es| && Enabled(p, es[i]) && ValidRun(Next(p, es[i]), es[i + 1..])
    ensures ValidRun(p, es[i..])
    ensures KillsNoLease(p, es[i..]) <==> KilledLeases(p, es[i]) == {} && KillsNoLease(Next(p, es[i]), es[i + 1..])
  {
    assert es[i..][0] == es[i] && es[i..][1..] == es[i + 1..];
  }
}
