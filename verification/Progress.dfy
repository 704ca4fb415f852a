/** Reaping and retiring get done: actors without live leases can be drained, seen empty and killed, and no other actor is touched. */
module Progress {
  import opened Prelude
  import A = Admission
  import opened Reclaim

  /** Every lease the actor still holds is a reservation whose time is over. */
  predicate Lapsed(b: A.Book, now: real) {
    A.Held(b) <= A.ExpiredIds(b.state, now)
  }

  predicate AllLapsed(p: Pool, handles: set<nat>, now: real) {
    forall a | a in handles && a in p.actors :: Lapsed(p.actors[a], now)
  }

  /** Everything but these actors and this task is as before. */
  predicate OthersStay(p: Pool, q: Pool, t: nat, handles: set<nat>) {
    q.actors - handles == p.actors - handles && q.tasks - {t} == p.tasks - {t} && q.seen == p.seen
  }

  /** A retirement that asked some of its actors to drain and saw some of them empty. */
  function Stage(handles: set<nat>, asked: set<nat>, polled: set<nat>): Task {
    Task(true, map a | a in handles :: Target(a in asked, if a in polled then Some(true) else None))
  }

  predicate At(p: Pool, t: nat, task: Task) {
    t in p.tasks && p.tasks[t] == task
  }

  lemma DrainOne(p: Pool, t: nat, handles: set<nat>, asked: set<nat>, a: nat, now: real)
    requires At(p, t, Stage(handles, asked, {})) && a in handles && a !in asked && AllLapsed(p, handles, now)
    ensures Enabled(p, Drain(t, a, true))
    ensures var q := Next(p, Drain(t, a, true));
      At(q, t, Stage(handles, asked + {a}, {})) && AllLapsed(q, handles, now) && OthersStay(p, q, t, handles)
  {
    var q := Next(p, Drain(t, a, true));
    assert q.tasks[t].targets == Stage(handles, asked + {a}, {}).targets;
  }

  /** A status call sweeps stale reservations, so a lapsed actor shows no lease. */
  lemma LapsedShowsEmpty(b: A.Book, now: real, clock: real)
    requires Lapsed(b, now)
    ensures A.Step(b, A.Status(now, clock)).state.leases == map[]
  {
    var next := A.Step(b, A.Status(now, clock));
    assert next.state.leases.Keys == {};
  }

  lemma PollOne(p: Pool, t: nat, handles: set<nat>, polled: set<nat>, a: nat, now: real, clock: real)
    requires At(p, t, Stage(handles, handles, polled)) && a in handles && a !in polled && AllLapsed(p, handles, now)
    ensures Enabled(p, Poll(t, a, now, clock))
    ensures var q := Next(p, Poll(t, a, now, clock));
      At(q, t, Stage(handles, handles, polled + {a})) && AllLapsed(q, handles, now) && OthersStay(p, q, t, handles)
  {
    if a in p.actors {
      LapsedShowsEmpty(p.actors[a], now, clock);
      EmptyIsLapsed(A.Step(p.actors[a], A.Status(now, clock)), now);
    }
    CallKeepsLapsed(p, handles, a, A.Status(now, clock), now);
    hide A.Step, Lapsed, AllLapsed;
    var q := Next(p, Poll(t, a, now, clock));
    assert q.actors == CallActor(p, a, A.Status(now, clock)).actors;
    assert q.tasks[t].targets == Stage(handles, handles, polled + {a}).targets;
    SameActors(CallActor(p, a, A.Status(now, clock)), q, handles, now);
  }

  lemma CallKeepsLapsed(p: Pool, handles: set<nat>, a: nat, op: A.Op, now: real)
    requires AllLapsed(p, handles, now) && (a in p.actors ==> Lapsed(A.Step(p.actors[a], op), now))
    ensures AllLapsed(CallActor(p, a, op), handles, now)
  {
    hide A.Step, Lapsed;
  }

  lemma SameActors(p: Pool, q: Pool, handles: set<nat>, now: real)
    requires AllLapsed(p, handles, now) && p.actors == q.actors
    ensures AllLapsed(q, handles, now)
  {
  }

  lemma EmptyIsLapsed(b: A.Book, now: real)
    requires b.state.leases == map[]
    ensures Lapsed(b, now)
  {
  }

  lemma KillOne(p: Pool, t: nat, left: set<nat>, a: nat)
    requires At(p, t, Stage(left, left, left)) && a in left
    ensures Enabled(p, Kill(t, a))
    ensures var q := Next(p, Kill(t, a));
      At(q, t, Stage(left - {a}, left - {a}, left - {a})) && q.actors == p.actors - {a} && OthersStay(p, q, t, left)
  {
    var q := Next(p, Kill(t, a));
    assert q.tasks[t].targets == Stage(left - {a}, left - {a}, left - {a}).targets;
  }

  lemma {:induction false} DrainAll(p: Pool, t: nat, handles: set<nat>, asked: set<nat>, now: real) returns (es: seq<Event>)
    requires At(p, t, Stage(handles, asked, {})) && AllLapsed(p, handles, now)
    ensures ValidRun(p, es) && DrainsArrive(es)
    ensures var q := End(p, es);
      At(q, t, Stage(handles, handles, {})) && AllLapsed(q, handles, now) && OthersStay(p, q, t, handles)
    decreases handles - asked
  {
    hide Next, Enabled, AllLapsed;
    if handles <= asked {
      es := [];
      assert Stage(handles, asked, {}) == Stage(handles, handles, {});
    } else {
      var a :| a in handles && a !in asked;
      DrainOne(p, t, handles, asked, a, now);
      var rest := DrainAll(Next(p, Drain(t, a, true)), t, handles, asked + {a}, now);
      es := [Drain(t, a, true)] + rest;
      assert es[1..] == rest;
    }
  }

  lemma {:induction false} PollAll(p: Pool, t: nat, handles: set<nat>, polled: set<nat>, now: real, clock: real) returns (es: seq<Event>)
    requires At(p, t, Stage(handles, handles, polled)) && AllLapsed(p, handles, now)
    ensures ValidRun(p, es) && DrainsArrive(es)
    ensures At(End(p, es), t, Stage(handles, handles, handles)) && OthersStay(p, End(p, es), t, handles)
    decreases handles - polled
  {
    hide Next, Enabled, AllLapsed;
    if handles <= polled {
      es := [];
      assert Stage(handles, handles, polled) == Stage(handles, handles, handles);
    } else {
      var a :| a in handles && a !in polled;
      PollOne(p, t, handles, polled, a, now, clock);
      var rest := PollAll(Next(p, Poll(t, a, now, clock)), t, handles, polled + {a}, now, clock);
      es := [Poll(t, a, now, clock)] + rest;
      assert es[1..] == rest;
    }
  }

  lemma {:induction false} KillAll(p: Pool, t: nat, left: set<nat>) returns (es: seq<Event>)
    requires At(p, t, Stage(left, left, left))
    ensures ValidRun(p, es) && DrainsArrive(es)
    ensures End(p, es).actors == p.actors - left && OthersStay(p, End(p, es), t, left)
    decreases left
  {
    hide Next, Enabled;
    if left == {} {
      es := [];
      assert p.actors - left == p.actors;
    } else {
      var a :| a in left;
      KillOne(p, t, left, a);
      var q := Next(p, Kill(t, a));
      var rest := KillAll(q, t, left - {a});
      es := [Kill(t, a)] + rest;
      assert es[1..] == rest;
      assert p.actors - {a} - (left - {a}) == p.actors - left;
    }
  }

  lemma {:induction false} RunsJoin(p: Pool, es: seq<Event>, more: seq<Event>)
    requires ValidRun(p, es) && ValidRun(End(p, es), more)
    ensures ValidRun(p, es + more) && End(p, es + more) == End(End(p, es), more)
    decreases |es|
  {
    hide Next, Enabled;
    if es == [] {
      assert es + more == more;
    } else {
      RunsJoin(Next(p, es[0]), es[1..], more);
      assert (es + more)[1..] == es[1..] + more;
    }
  }

  /** A retirement of actors without live leases can run to its end: exactly those actors are gone. */
  lemma RetirementCompletes(p: Pool, t: nat, handles: set<nat>, now: real, clock: real) returns (es: seq<Event>)
    requires t !in p.tasks && handles <= p.seen && AllLapsed(p, handles, now)
    ensures ValidRun(p, es) && DrainsArrive(es)
    ensures End(p, es).actors == p.actors - handles && OthersStay(p, End(p, es), t, handles)
  {
    var begun := Next(p, BeginRetire(t, handles));
    assert begun.tasks[t] == Stage(handles, {}, {});
    assert ValidRun(p, [BeginRetire(t, handles)]) && End(p, [BeginRetire(t, handles)]) == begun by {
      assert [BeginRetire(t, handles)][1..] == [];
    }
    hide Next, Enabled, AllLapsed;
    var drains := DrainAll(begun, t, handles, {}, now);
    var drained := End(begun, drains);
    var polls := PollAll(drained, t, handles, {}, now, clock);
    var seenEmpty := End(drained, polls);
    var kills := KillAll(seenEmpty, t, handles);
    RunsJoin(drained, polls, kills);
    RunsJoin(begun, drains, polls + kills);
    RunsJoin(p, [BeginRetire(t, handles)], drains + (polls + kills));
    es := [BeginRetire(t, handles)] + (drains + (polls + kills));
    assert seenEmpty.actors - handles == p.actors - handles;
  }

  /** What a reaper does to a candidate that stays without live leases; one that drains already is not asked again. */
  function Reaping(t: nat, a: nat, draining: bool, now: real, clock: real): seq<Event> {
    [BeginReap(t, a, now, clock)] + ((if draining then [] else [Drain(t, a, true)]) + [Poll(t, a, now, clock), Kill(t, a)])
  }

  function Reaper(a: nat, target: Target): Task { Task(false, map[a := target]) }

  predicate Candidate(p: Pool, a: nat, now: real) {
    a in p.actors && Lapsed(p.actors[a], now)
  }

  lemma ReapBegins(p: Pool, t: nat, a: nat, now: real, clock: real)
    requires t !in p.tasks && Candidate(p, a, now)
    ensures Enabled(p, BeginReap(t, a, now, clock))
    ensures var q := Next(p, BeginReap(t, a, now, clock));
      At(q, t, Reaper(a, Target(p.actors[a].state.draining, None))) && Candidate(q, a, now) && OthersStay(p, q, t, {a})
  {
    LapsedShowsEmpty(p.actors[a], now, clock);
  }

  lemma ReapAsks(p: Pool, t: nat, a: nat, now: real)
    requires At(p, t, Reaper(a, Target(false, None))) && Candidate(p, a, now)
    ensures Enabled(p, Drain(t, a, true))
    ensures var q := Next(p, Drain(t, a, true));
      At(q, t, Reaper(a, Target(true, None))) && Candidate(q, a, now) && OthersStay(p, q, t, {a})
  {
    var q := Next(p, Drain(t, a, true));
    assert q.tasks[t].targets == map[a := Target(true, None)];
  }

  lemma ReapPolls(p: Pool, t: nat, a: nat, now: real, clock: real)
    requires At(p, t, Reaper(a, Target(true, None))) && Candidate(p, a, now)
    ensures Enabled(p, Poll(t, a, now, clock))
    ensures var q := Next(p, Poll(t, a, now, clock));
      At(q, t, Reaper(a, Target(true, Some(true)))) && OthersStay(p, q, t, {a})
  {
    LapsedShowsEmpty(p.actors[a], now, clock);
    var q := Next(p, Poll(t, a, now, clock));
    assert q.tasks[t].targets == map[a := Target(true, Some(true))];
  }

  lemma ReapKills(p: Pool, t: nat, a: nat)
    requires At(p, t, Reaper(a, Target(true, Some(true))))
    ensures Enabled(p, Kill(t, a)) && Next(p, Kill(t, a)).actors == p.actors - {a} && OthersStay(p, Next(p, Kill(t, a)), t, {a})
  {
  }

  /** A reaper can kill every actor without live leases, and kills no other. */
  lemma ReapCompletes(p: Pool, t: nat, a: nat, now: real, clock: real)
    requires t !in p.tasks && Candidate(p, a, now)
    ensures var es := Reaping(t, a, p.actors[a].state.draining, now, clock);
      && ValidRun(p, es) && DrainsArrive(es)
      && End(p, es).actors == p.actors - {a} && OthersStay(p, End(p, es), t, {a})
  {
    var draining := p.actors[a].state.draining;
    hide Enabled, Next, Candidate, Reaper, DrainsArrive;
    ReapBegins(p, t, a, now, clock);
    var begun := Next(p, BeginReap(t, a, now, clock));
    Single(p, BeginReap(t, a, now, clock));
    if !draining { ReapAsks(begun, t, a, now); Single(begun, Drain(t, a, true)); }
    var asked := if draining then begun else Next(begun, Drain(t, a, true));
    var ask := if draining then [] else [Drain(t, a, true)];
    ReapPolls(asked, t, a, now, clock);
    var seenEmpty := Next(asked, Poll(t, a, now, clock));
    Single(asked, Poll(t, a, now, clock));
    ReapKills(seenEmpty, t, a);
    Single(seenEmpty, Kill(t, a));
    RunsJoin(asked, [Poll(t, a, now, clock)], [Kill(t, a)]);
    RunsJoin(begun, ask, [Poll(t, a, now, clock)] + [Kill(t, a)]);
    RunsJoin(p, [BeginReap(t, a, now, clock)], ask + ([Poll(t, a, now, clock)] + [Kill(t, a)]));
    assert [Poll(t, a, now, clock)] + [Kill(t, a)] == [Poll(t, a, now, clock), Kill(t, a)];
    ReapingArrives(t, a, draining, now, clock);
    assert seenEmpty.actors - {a} == p.actors - {a};
  }

  lemma ReapingArrives(t: nat, a: nat, draining: bool, now: real, clock: real)
    ensures DrainsArrive(Reaping(t, a, draining, now, clock))
  {
  }

  lemma Single(p: Pool, e: Event)
    requires Enabled(p, e)
    ensures ValidRun(p, [e]) && End(p, [e]) == Next(p, e)
  {
    assert [e][1..] == [];
  }
}
