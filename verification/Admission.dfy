/** Leases of one shared IO actor: reserved, started, finished, cancelled, expired. */
module Admission {
  import opened Prelude

  datatype LeaseState = Reserved | Running

  datatype Lease = Lease(requestId: string, service: string, revision: string, state: LeaseState, expiresAt: Option<real>)

  /** The state that the actor's lock protects. */
  datatype Controller = Controller(
    maxIo: nat,
    ttl: real,
    activeIo: int,
    draining: bool,
    leases: map<string, Lease>,
    idleSince: Option<real>)

  datatype Error = InvalidLease | NotIo

  // ---------------------------------------------------------------- operations on the state

  predicate IsExpired(l: Lease, now: real) {
    l.state == Reserved && l.expiresAt.Some? && l.expiresAt.value <= now
  }

  function ExpiredIds(s: Controller, now: real): set<string> {
    set id | id in s.leases && IsExpired(s.leases[id], now)
  }

  /** Drops leases; the actor becomes idle when the last one goes. */
  function Release(s: Controller, ids: set<string>, clock: real): Controller {
    s.(activeIo := s.activeIo - |ids|,
       leases := s.leases - ids,
       idleSince := if ids != {} && s.activeIo - |ids| == 0 then Some(clock) else s.idleSince)
  }

  function Expire(s: Controller, now: real, clock: real): Controller {
    Release(s, ExpiredIds(s, now), clock)
  }

  predicate CanReserve(s: Controller) {
    !s.draining && s.activeIo < s.maxIo
  }

  function Grant(s: Controller, id: string, requestId: string, service: string, revision: string, now: real): Controller {
    s.(activeIo := s.activeIo + 1,
       leases := s.leases[id := Lease(requestId, service, revision, Reserved, Some(now + s.ttl))],
       idleSince := if s.activeIo == 0 then None else s.idleSince)
  }

  /** Only a reservation can be started or cancelled. */
  predicate IsReservation(s: Controller, id: string) {
    id in s.leases && s.leases[id].state == Reserved
  }

  function Begin(s: Controller, id: string): Controller
    requires id in s.leases
  {
    s.(leases := s.leases[id := s.leases[id].(state := Running, expiresAt := None)])
  }

  // ---------------------------------------------------------------- with the history of every lease

  /** A controller with the ids it ever granted and what became of them. */
  datatype Book = Book(
    state: Controller,
    granted: set<string>,
    finished: set<string>,
    cancelled: set<string>,
    expired: set<string>)

  /** `now` is read before the lock is taken and `clock` when capacity is released. */
  datatype Op =
    | TryReserve(requestId: string, isIo: bool, service: string, revision: string, now: real, clock: real, id: string)
    | Start(lease: string, now: real, clock: real)
    | Finish(lease: string, clock: real)
    | Cancel(lease: string, clock: real)
    | Drain
    | Status(now: real, clock: real)

  function ExpireBook(b: Book, now: real, clock: real): Book {
    b.(state := Expire(b.state, now, clock), expired := b.expired + ExpiredIds(b.state, now))
  }

  function Step(b: Book, op: Op): Book {
    match op
    case TryReserve(requestId, isIo, service, revision, now, clock, id) =>
      var e := ExpireBook(b, now, clock);
      if isIo && CanReserve(e.state)
      then e.(state := Grant(e.state, id, requestId, service, revision, now), granted := e.granted + {id})
      else e
    case Start(lease, now, clock) =>
      var e := ExpireBook(b, now, clock);
      if IsReservation(e.state, lease) then e.(state := Begin(e.state, lease)) else e
    case Finish(lease, clock) =>
      if lease in b.state.leases
      then b.(state := Release(b.state, {lease}, clock), finished := b.finished + {lease})
      else b
    case Cancel(lease, clock) =>
      if IsReservation(b.state, lease)
      then b.(state := Release(b.state, {lease}, clock), cancelled := b.cancelled + {lease})
      else b
    case Drain => b.(state := b.state.(draining := true))
    case Status(now, clock) => ExpireBook(b, now, clock)
  }

  /** A new lease gets an id that was never used (they are random UUIDs). */
  predicate Enabled(b: Book, op: Op) {
    op.TryReserve? ==> op.id !in b.granted
  }

  function Held(b: Book): set<string> { b.state.leases.Keys }

  ghost predicate Sound(s: Controller) {
    && s.activeIo == |s.leases| && s.activeIo <= s.maxIo
    && (s.idleSince.None? <==> s.leases != map[])
    && (forall id | id in s.leases :: s.leases[id].state == Running <==> s.leases[id].expiresAt.None?)
  }

  /** Every lease ever granted has exactly one fate. */
  ghost predicate Accounted(b: Book) {
    && b.granted == b.finished + b.cancelled + b.expired + Held(b)
    && b.finished !! b.cancelled !! b.expired !! Held(b)
  }

  ghost predicate Inv(b: Book) { Sound(b.state) && Accounted(b) }

  function Initial(maxIo: nat, ttl: real, clock: real): Book {
    Book(Controller(maxIo, ttl, 0, false, map[], Some(clock)), {}, {}, {}, {})
  }

  // ---------------------------------------------------------------- invariants

  lemma ReleaseSound(s: Controller, ids: set<string>, clock: real)
    requires Sound(s) && ids <= s.leases.Keys
    ensures Sound(Release(s, ids, clock))
    ensures Release(s, ids, clock).leases.Keys == s.leases.Keys - ids
  {
    RemovedSize(s.leases, ids);
  }

  lemma RemovedSize(leases: map<string, Lease>, ids: set<string>)
    requires ids <= leases.Keys
    ensures (leases - ids).Keys == leases.Keys - ids && |leases - ids| == |leases| - |ids|
    ensures leases - ids == map[] <==> |leases| == |ids|
    ensures ids == {} ==> leases - ids == leases
  {
    var r := leases - ids;
    assert r.Keys == leases.Keys - ids;
    assert |r.Keys| == |leases.Keys| - |ids|;
    assert |r| == |r.Keys| && |leases| == |leases.Keys|;
    assert r == map[] <==> |r| == 0;
  }

  lemma GrantSound(s: Controller, id: string, requestId: string, service: string, revision: string, now: real)
    requires Sound(s) && s.activeIo < s.maxIo && id !in s.leases
    ensures Sound(Grant(s, id, requestId, service, revision, now))
  {
    var g := Grant(s, id, requestId, service, revision, now);
    assert g.leases.Keys == s.leases.Keys + {id};
    assert |g.leases| == |g.leases.Keys| && |s.leases| == |s.leases.Keys|;
    assert s.leases == map[] <==> |s.leases| == 0;
    assert id in g.leases;
  }

  lemma BeginSound(s: Controller, id: string)
    requires Sound(s) && id in s.leases
    ensures Sound(Begin(s, id)) && Begin(s, id).leases.Keys == s.leases.Keys
  {
    var g := Begin(s, id);
    assert g.leases.Keys == s.leases.Keys;
    assert |g.leases| == |g.leases.Keys| && |s.leases| == |s.leases.Keys|;
    assert id in g.leases;
  }

  /** Released ids move from the held leases to one of the ended sets. */
  lemma EndedAccounted(b: Book, ids: set<string>, next: Book)
    requires Accounted(b) && ids <= Held(b)
    requires Held(next) == Held(b) - ids && next.granted == b.granted
    requires
      || (next.finished == b.finished + ids && next.cancelled == b.cancelled && next.expired == b.expired)
      || (next.finished == b.finished && next.cancelled == b.cancelled + ids && next.expired == b.expired)
      || (next.finished == b.finished && next.cancelled == b.cancelled && next.expired == b.expired + ids)
    ensures Accounted(next)
  {
  }

  lemma GrantedAccounted(b: Book, id: string, next: Book)
    requires Accounted(b) && id !in b.granted
    requires Held(next) == Held(b) + {id} && next.granted == b.granted + {id}
    requires next.finished == b.finished && next.cancelled == b.cancelled && next.expired == b.expired
    ensures Accounted(next)
  {
  }

  lemma ExpireKeeps(b: Book, now: real, clock: real)
    requires Inv(b)
    ensures Inv(ExpireBook(b, now, clock)) && Held(ExpireBook(b, now, clock)) == Held(b) - ExpiredIds(b.state, now)
  {
    hide Sound, Accounted, IsExpired, Release;
    ReleaseSound(b.state, ExpiredIds(b.state, now), clock);
    EndedAccounted(b, ExpiredIds(b.state, now), ExpireBook(b, now, clock));
  }

  lemma ReserveKeeps(b: Book, op: Op)
    requires Inv(b) && op.TryReserve? && op.id !in b.granted
    ensures Inv(Step(b, op))
  {
    hide Sound, Accounted, Release, ExpiredIds;
    ExpireKeeps(b, op.now, op.clock);
    var e := ExpireBook(b, op.now, op.clock);
    if op.isIo && CanReserve(e.state) {
      HeldWasGranted(e);
      GrantSound(e.state, op.id, op.requestId, op.service, op.revision, op.now);
      GrantedAccounted(e, op.id, Step(b, op));
    }
  }

  lemma HeldWasGranted(b: Book)
    requires Accounted(b)
    ensures Held(b) <= b.granted
  {
  }

  lemma StartKeeps(b: Book, op: Op)
    requires Inv(b) && op.Start?
    ensures Inv(Step(b, op))
  {
    hide Sound, Accounted, Release, ExpiredIds;
    ExpireKeeps(b, op.now, op.clock);
    var e := ExpireBook(b, op.now, op.clock);
    if IsReservation(e.state, op.lease) {
      BeginSound(e.state, op.lease);
      EndedAccounted(e, {}, Step(b, op));
    }
  }

  lemma EndKeeps(b: Book, op: Op)
    requires Inv(b) && (op.Finish? || op.Cancel?)
    ensures Inv(Step(b, op))
  {
    hide Sound, Accounted, Release, ExpiredIds;
    if op.lease in b.state.leases && (op.Finish? || IsReservation(b.state, op.lease)) {
      ReleaseSound(b.state, {op.lease}, op.clock);
      EndedAccounted(b, {op.lease}, Step(b, op));
    }
  }

  /** Every operation keeps the counters right and every lease accounted for. */
  lemma StepKeeps(b: Book, op: Op)
    requires Inv(b) && Enabled(b, op)
    ensures Inv(Step(b, op))
  {
    hide Step;
    match op
    case TryReserve(_, _, _, _, _, _, _) => ReserveKeeps(b, op);
    case Start(_, _, _) => StartKeeps(b, op);
    case Finish(_, _) => EndKeeps(b, op);
    case Cancel(_, _) => EndKeeps(b, op);
    case Drain => DrainKeeps(b, op);
    case Status(now, clock) => StatusKeeps(b, op);
  }

  lemma DrainKeeps(b: Book, op: Op)
    requires Inv(b) && op.Drain?
    ensures Inv(Step(b, op))
  {
  }

  lemma StatusKeeps(b: Book, op: Op)
    requires Inv(b) && op.Status?
    ensures Inv(Step(b, op))
  {
    hide Sound, Accounted, Release, ExpiredIds;
    ExpireKeeps(b, op.now, op.clock);
  }

  /** A run in which every new lease id is fresh. */
  predicate ValidRun(b: Book, ops: seq<Op>)
    decreases |ops|
  {
    ops == [] || (Enabled(b, ops[0]) && ValidRun(Step(b, ops[0]), ops[1..]))
  }

  function Run(b: Book, ops: seq<Op>): Book
    decreases |ops|
  {
    if ops == [] then b else Run(Step(b, ops[0]), ops[1..])
  }

  lemma {:induction false} RunKeeps(b: Book, ops: seq<Op>)
    requires Inv(b) && ValidRun(b, ops)
    ensures Inv(Run(b, ops))
    decreases |ops|
  {
    if ops != [] {
      StepKeeps(b, ops[0]);
      RunKeeps(Step(b, ops[0]), ops[1..]);
    }
  }

  /** Conservation: grants are the finished, cancelled, expired and held leases, counted once each. */
  lemma LeasesAreConserved(maxIo: nat, ttl: real, clock: real, ops: seq<Op>)
    requires ValidRun(Initial(maxIo, ttl, clock), ops)
    ensures var b := Run(Initial(maxIo, ttl, clock), ops);
      && |b.granted| == |b.finished| + |b.cancelled| + |b.expired| + |Held(b)|
      && b.state.activeIo == |Held(b)| <= maxIo
      && (b.state.idleSince.None? <==> Held(b) != {})
  {
    assert Inv(Initial(maxIo, ttl, clock));
    RunKeeps(Initial(maxIo, ttl, clock), ops);
    MaxIoStays(Initial(maxIo, ttl, clock), ops);
    var b := Run(Initial(maxIo, ttl, clock), ops);
    assert |b.finished + b.cancelled| == |b.finished| + |b.cancelled|;
    assert |b.finished + b.cancelled + b.expired| == |b.finished| + |b.cancelled| + |b.expired|;
    assert |b.state.leases| == |Held(b)|;
  }

  lemma {:induction false} MaxIoStays(b: Book, ops: seq<Op>)
    ensures Run(b, ops).state.maxIo == b.state.maxIo
    decreases |ops|
  {
    hide ExpiredIds;
    if ops != [] { MaxIoStays(Step(b, ops[0]), ops[1..]); }
  }

  /** A running lease leaves only by being finished. */
  lemma RunningNeverExpires(b: Book, op: Op, id: string)
    requires Inv(b) && id in Held(b) && b.state.leases[id].state == Running
    requires !(op.Finish? && op.lease == id) && Enabled(b, op)
    ensures id in Held(Step(b, op)) && Step(b, op).state.leases[id] == b.state.leases[id]
  {
    hide Sound, Accounted;
    HeldWasGranted(b);
    assert id !in ExpiredIds(b.state, if op.TryReserve? || op.Start? || op.Status? then op.now else 0.0);
  }

  /** Fates only accumulate, and a lease that has ended is never held again. */
  ghost predicate Later(b: Book, r: Book) {
    && b.finished <= r.finished && b.cancelled <= r.cancelled && b.expired <= r.expired && b.granted <= r.granted
    && b.granted - Held(b) <= r.granted - Held(r)
  }

  lemma StepIsLater(b: Book, op: Op)
    requires Inv(b) && Enabled(b, op)
    ensures Later(b, Step(b, op))
  {
    hide Sound, ExpiredIds;
  }

  /** Once a lease is finished, cancelled or expired, that stays its only fate. */
  lemma {:induction false} FatesAreFinal(b: Book, ops: seq<Op>)
    requires Inv(b) && ValidRun(b, ops)
    ensures Later(b, Run(b, ops)) && Inv(Run(b, ops))
    decreases |ops|
  {
    hide Sound, Accounted, Step, Enabled;
    if ops != [] {
      StepKeeps(b, ops[0]);
      StepIsLater(b, ops[0]);
      FatesAreFinal(Step(b, ops[0]), ops[1..]);
    }
  }

  predicate Sweeps(op: Op) { op.TryReserve? || op.Start? || op.Status? }

  predicate Touches(op: Op, id: string) {
    (op.Start? || op.Finish? || op.Cancel?) && op.lease == id
  }

  /** Some call sweeps at the time t or later. */
  predicate SweptFrom(ops: seq<Op>, t: real) {
    exists op | op in ops :: Sweeps(op) && t <= op.now
  }

  predicate Waits(b: Book, id: string, t: real) {
    id in b.state.leases && b.state.leases[id].state == Reserved && b.state.leases[id].expiresAt == Some(t)
  }

  lemma StepWaits(b: Book, op: Op, id: string, t: real)
    requires Inv(b) && Enabled(b, op) && Waits(b, id, t) && !Touches(op, id)
    ensures if Sweeps(op) && t <= op.now then id in Step(b, op).expired else Waits(Step(b, op), id, t)
  {
    hide Sound, Accounted;
    HeldWasGranted(b);
    if Sweeps(op) { assert id in ExpiredIds(b.state, op.now) <==> t <= op.now; }
  }

  lemma {:induction false} WaitsUntilSwept(b: Book, ops: seq<Op>, id: string, t: real)
    requires Inv(b) && ValidRun(b, ops) && Waits(b, id, t)
    requires forall op | op in ops :: !Touches(op, id)
    ensures if SweptFrom(ops, t) then id in Run(b, ops).expired else Waits(Run(b, ops), id, t)
    decreases |ops|
  {
    hide Inv, Step, Enabled, Waits;
    if ops != [] {
      var op := ops[0];
      StepKeeps(b, op);
      StepWaits(b, op, id, t);
      assert ops == [op] + ops[1..];
      if Sweeps(op) && t <= op.now {
        FatesAreFinal(Step(b, op), ops[1..]);
      } else {
        WaitsUntilSwept(Step(b, op), ops[1..], id, t);
      }
    }
  }

  /**
   A granted reservation that nobody starts, finishes or cancels is held through
   any run until the first sweep from its time to live on, and has expired then.
   */
  lemma LapsesExactly(b: Book, op: Op, ops: seq<Op>)
    requires Inv(b) && op.TryReserve? && Enabled(b, op) && op.id in Step(b, op).granted
    requires ValidRun(Step(b, op), ops) && forall o | o in ops :: !Touches(o, op.id)
    ensures var r := Run(Step(b, op), ops);
      && (op.id in Held(r) <==> !SweptFrom(ops, op.now + b.state.ttl))
      && (op.id in r.expired <==> SweptFrom(ops, op.now + b.state.ttl))
  {
    hide Step, Enabled, SweptFrom, Sound, Run, ValidRun, Touches;
    GrantWaits(b, op);
    StepKeeps(b, op);
    RunKeeps(Step(b, op), ops);
    WaitsUntilSwept(Step(b, op), ops, op.id, op.now + b.state.ttl);
    OneFate(Run(Step(b, op), ops), op.id);
  }

  lemma OneFate(b: Book, id: string)
    requires Accounted(b) && (id in b.state.leases || id in b.expired)
    ensures id in Held(b) <==> id !in b.expired
  {
  }

  lemma GrantWaits(b: Book, op: Op)
    requires op.TryReserve? && Enabled(b, op) && op.id in Step(b, op).granted
    ensures Waits(Step(b, op), op.id, op.now + b.state.ttl)
  {
    hide ExpiredIds;
  }

  /** After a drain nothing is granted any more and the held leases only shrink. */
  lemma DrainedOnlyShrinks(b: Book, op: Op)
    requires b.state.draining
    ensures Step(b, op).state.draining
    ensures Held(Step(b, op)) <= Held(b) && Step(b, op).granted == b.granted
  {
  }

  // ---------------------------------------------------------------- what one operation does to one lease

  /** A sweep at the time of the operation drops this lease. */
  predicate Stale(op: Op, l: Lease) {
    Sweeps(op) && l.state == Reserved && l.expiresAt.Some? && l.expiresAt.value <= op.now
  }

  predicate Ends(op: Op, id: string, l: Lease) {
    && (op.Finish? || op.Cancel?) && op.lease == id
    && (op.Cancel? ==> l.state == Reserved)
  }

  predicate Starts(op: Op, id: string, l: Lease) {
    op.Start? && op.lease == id && l.state == Reserved
  }

  /** A held lease goes if it is stale, finished, or cancelled as a reservation; a start changes its state, and nothing changes whose it is. */
  predicate FateFollows(op: Op, id: string, l: Lease, next: Book) {
    && (id in next.expired <==> Stale(op, l))
    && (id in next.finished <==> Ends(op, id, l) && op.Finish?)
    && (id in next.cancelled <==> Ends(op, id, l) && op.Cancel?)
    && (id in Held(next) <==> !Stale(op, l) && !Ends(op, id, l))
    && (id in Held(next) ==> next.state.leases[id] == if Starts(op, id, l) then l.(state := Running, expiresAt := None) else l)
  }

  lemma LeaseStepExactly(b: Book, op: Op, id: string)
    requires Inv(b) && Enabled(b, op) && id in Held(b)
    ensures FateFollows(op, id, b.state.leases[id], Step(b, op))
  {
    HeldHasNoFate(b, id);
    hide Inv, Step, FateFollows;
    if Sweeps(op) {
      SweepFates(b, op, id);
    } else {
      EndFates(b, op, id);
    }
  }

  lemma SweepFates(b: Book, op: Op, id: string)
    requires Sweeps(op) && id in Held(b) && id !in b.finished && id !in b.cancelled && id !in b.expired
    requires op.TryReserve? ==> id != op.id
    ensures FateFollows(op, id, b.state.leases[id], Step(b, op))
  {
    StaleExactly(b, op, id);
    hide Stale, ExpiredIds;
  }

  lemma EndFates(b: Book, op: Op, id: string)
    requires !Sweeps(op) && id in Held(b) && id !in b.finished && id !in b.cancelled && id !in b.expired
    ensures FateFollows(op, id, b.state.leases[id], Step(b, op))
  {
    hide ExpiredIds;
  }

  lemma HeldHasNoFate(b: Book, id: string)
    requires Inv(b) && id in Held(b)
    ensures id in b.granted && id !in b.finished && id !in b.cancelled && id !in b.expired
  {
    hide Sound;
  }

  lemma StaleExactly(b: Book, op: Op, id: string)
    requires id in b.state.leases && Sweeps(op)
    ensures Stale(op, b.state.leases[id]) <==> id in ExpiredIds(b.state, op.now)
  {
  }

  /** The only new lease is the one that was asked for, under the condition of the admission, for the request that asked. */
  lemma GrantExactly(b: Book, op: Op, id: string)
    requires Inv(b) && Enabled(b, op) && id !in Held(b)
    ensures id in Held(Step(b, op)) <==>
      && op.TryReserve? && op.id == id && op.isIo && !b.state.draining
      && |set held | held in Held(b) && !Stale(op, b.state.leases[held])| < b.state.maxIo
    ensures id in Held(Step(b, op)) ==>
      Step(b, op).state.leases[id] == Lease(op.requestId, op.service, op.revision, Reserved, Some(op.now + b.state.ttl))
  {
    hide Sound, Accounted;
    if op.TryReserve? {
      ReserveIs(b, op);
      RoomExactly(b, op);
      hide ExpiredIds, IsExpired;
    }
  }

  /** Stale reservations leave their room at once. */
  lemma RoomExactly(b: Book, op: Op)
    requires Inv(b) && op.TryReserve?
    ensures Expire(b.state, op.now, op.clock).activeIo == |set held | held in Held(b) && !Stale(op, b.state.leases[held])|
  {
    var live := set held | held in Held(b) && !Stale(op, b.state.leases[held]);
    assert live == b.state.leases.Keys - ExpiredIds(b.state, op.now);
    ReserveIs(b, op);
    var e := Expire(b.state, op.now, op.clock);
    assert |e.leases| == |e.leases.Keys|;
    hide ExpiredIds, Inv, Step;
  }

  /** The time at which the operation releases capacity; a drain releases none. */
  function Clock(op: Op): real { if op.Drain? then 0.0 else op.clock }

  /** The idle mark is the moment the last lease went, and goes with the next grant. */
  lemma IdleExactly(b: Book, op: Op)
    requires Inv(b) && Enabled(b, op)
    ensures var next := Step(b, op);
      next.state.idleSince ==
        if Held(next) != {} then None
        else if Held(b) != {} then Some(Clock(op))
        else b.state.idleSince
  {
    StepKeeps(b, op);
    InvParts(b);
    InvParts(Step(b, op));
    SoundCounts(b.state);
    SoundCounts(Step(b, op).state);
    hide Inv, Sound;
    if Held(Step(b, op)) == {} { EmptiedNow(b, op); }
  }

  lemma EmptiedNow(b: Book, op: Op)
    requires b.state.activeIo == |b.state.leases| && Held(Step(b, op)) == {}
    ensures Step(b, op).state.idleSince == if Held(b) != {} then Some(Clock(op)) else b.state.idleSince
  {
    hide Step;
    if Sweeps(op) { EmptiedBySweep(b, op); } else { EmptiedByEnd(b, op); }
  }

  lemma EmptiedBySweep(b: Book, op: Op)
    requires b.state.activeIo == |b.state.leases| && Sweeps(op) && Held(Step(b, op)) == {}
    ensures Step(b, op).state.idleSince == if Held(b) != {} then Some(Clock(op)) else b.state.idleSince
  {
    hide Release, ExpiredIds, Step, Expire;
    ExpiredAreHeld(b.state, op.now);
    ReleasedIdle(b.state, ExpiredIds(b.state, op.now), op.clock);
    SweptEmpty(b, op);
    assert forall id | id in b.state.leases.Keys :: id in b.state.leases.Keys - ExpiredIds(b.state, op.now) || id in ExpiredIds(b.state, op.now);
    assert ExpiredIds(b.state, op.now) == b.state.leases.Keys;
  }

  lemma SweptEmpty(b: Book, op: Op)
    requires Sweeps(op) && Held(Step(b, op)) == {}
    ensures Step(b, op).state == Release(b.state, ExpiredIds(b.state, op.now), op.clock)
    ensures Release(b.state, ExpiredIds(b.state, op.now), op.clock).leases.Keys == {}
  {
    hide Release, ExpiredIds, CanReserve;
    var e, next := Release(b.state, ExpiredIds(b.state, op.now), op.clock), Step(b, op).state;
    match op {
      case TryReserve(_, _, _, _, _, _, id) => assert next == e || id in next.leases.Keys;
      case Start(lease, _, _) => assert next == e || lease in next.leases.Keys;
      case Status(_, _) =>
    }
  }

  lemma ExpiredAreHeld(s: Controller, now: real)
    ensures ExpiredIds(s, now) <= s.leases.Keys
  {
  }

  lemma EmptiedByEnd(b: Book, op: Op)
    requires b.state.activeIo == |b.state.leases| && !Sweeps(op) && Held(Step(b, op)) == {}
    ensures Step(b, op).state.idleSince == if Held(b) != {} then Some(Clock(op)) else b.state.idleSince
  {
    hide Release;
    if !op.Drain? && op.lease in b.state.leases { ReleasedIdle(b.state, {op.lease}, op.clock); }
  }

  lemma ReleasedIdle(s: Controller, ids: set<string>, clock: real)
    requires s.activeIo == |s.leases| && ids <= s.leases.Keys
    ensures Release(s, ids, clock).leases.Keys == s.leases.Keys - ids
    ensures Release(s, ids, clock).idleSince == if ids != {} && ids == s.leases.Keys then Some(clock) else s.idleSince
  {
    RemovedSize(s.leases, ids);
    assert s.leases == map[] <==> s.leases.Keys == {};
    assert (s.leases - ids).Keys == {} <==> s.leases - ids == map[];
    assert |s.leases| == |s.leases.Keys|;
  }

  /** Room and time to live are fixed, and only a drain closes the controller. */
  lemma SettingsExactly(b: Book, op: Op)
    ensures Step(b, op).state.maxIo == b.state.maxIo && Step(b, op).state.ttl == b.state.ttl
    ensures Step(b, op).state.draining == (b.state.draining || op.Drain?)
  {
    hide ExpiredIds;
  }

  /** However the run goes on, a lease that is still held names the request, service and revision it was granted for. */
  lemma {:induction false} LeaseNamesItsRequest(b: Book, op: Op, ops: seq<Op>)
    requires Inv(b) && op.TryReserve? && Enabled(b, op) && op.id in Held(Step(b, op)) && ValidRun(Step(b, op), ops)
    ensures var end := Run(Step(b, op), ops);
      op.id in Held(end) ==> IsFor(end.state.leases[op.id], op.requestId, op.service, op.revision)
  {
    HeldWasGranted(b);
    GrantExactly(b, op, op.id);
    StepKeeps(b, op);
    OwnerStays(Step(b, op), ops, op.id);
    hide Step, Inv, Run;
  }

  predicate IsFor(l: Lease, requestId: string, service: string, revision: string) {
    l.requestId == requestId && l.service == service && l.revision == revision
  }

  lemma {:induction false} OwnerStays(b: Book, ops: seq<Op>, id: string)
    requires Inv(b) && ValidRun(b, ops) && id in Held(b)
    ensures id in Held(Run(b, ops)) ==>
      var l := b.state.leases[id]; IsFor(Run(b, ops).state.leases[id], l.requestId, l.service, l.revision)
    decreases |ops|
  {
    hide Inv, Step, Enabled;
    if ops != [] {
      LeaseStepExactly(b, ops[0], id);
      StepKeeps(b, ops[0]);
      if id in Held(Step(b, ops[0])) {
        OwnerStays(Step(b, ops[0]), ops[1..], id);
      } else {
        StepIsLater(b, ops[0]);
        FatesAreFinal(Step(b, ops[0]), ops[1..]);
        GoneStaysGone(b, Step(b, ops[0]), Run(Step(b, ops[0]), ops[1..]), id);
      }
    }
  }

  lemma GoneStaysGone(b: Book, next: Book, end: Book, id: string)
    requires Inv(b) && id in Held(b) && id !in Held(next) && Later(b, next) && Later(next, end)
    ensures id !in Held(end)
  {
    hide Sound;
  }

  // ---------------------------------------------------------------- the actor's controller

  function Reservations(s: Controller): set<string> {
    set id | id in s.leases && s.leases[id].state == Reserved
  }

  function Executions(s: Controller): set<string> {
    set id | id in s.leases && s.leases[id].state == Running
  }

  datatype ActorState = Idle | SharedIo | SaturatedIo | Draining

  datatype ActorStatus = ActorStatus(state: ActorState, activeIo: int, maxIo: nat, reserved: nat, running: int, idleFor: real)

  /** Releasing leases one by one is releasing them together. */
  lemma ReleaseMore(s: Controller, ids: set<string>, id: string, clock: real)
    requires s.activeIo == |s.leases| && ids <= s.leases.Keys && id in s.leases && id !in ids
    ensures id in Release(s, ids, clock).leases
    ensures Release(Release(s, ids, clock), {id}, clock) == Release(s, ids + {id}, clock)
  {
    assert s.leases - ids - {id} == s.leases - (ids + {id});
    var r := s.leases.Keys - ids;
    assert id in r;
    assert |r| == |s.leases.Keys| - |ids| && |r - {id}| == |r| - 1;
    assert |s.leases| == |s.leases.Keys|;
  }

  lemma ReservedOrRunning(s: Controller)
    ensures |Reservations(s)| + |Executions(s)| == |s.leases|
  {
    assert Reservations(s) !! Executions(s);
    assert Reservations(s) + Executions(s) == s.leases.Keys;
    assert |s.leases| == |s.leases.Keys|;
  }

  lemma ReleaseNone(s: Controller, clock: real)
    ensures Release(s, {}, clock) == s
  {
    assert s.leases - {} == s.leases;
  }

  lemma SoundCounts(s: Controller)
    requires Sound(s)
    ensures s.activeIo == |s.leases| <= s.maxIo && (s.idleSince.None? <==> s.leases != map[])
  {
  }

  lemma ReserveIs(b: Book, op: Op)
    requires Inv(b) && op.TryReserve?
    ensures var e := Expire(b.state, op.now, op.clock);
      && e.leases.Keys == b.state.leases.Keys - ExpiredIds(b.state, op.now) && Sound(e)
      && Step(b, op).state ==
         if op.isIo && CanReserve(e) then Grant(e, op.id, op.requestId, op.service, op.revision, op.now) else e
  {
    hide Sound, ExpiredIds;
    ExpireKeeps(b, op.now, op.clock);
  }

  lemma InvParts(b: Book)
    requires Inv(b)
    ensures Sound(b.state)
  {
  }

  class AdmissionController {
    const maxIo: nat
    const ttl: real
    var activeIo: int
    var actorDraining: bool
    var leases: map<string, Lease>
    var idleSince: Option<real>
    ghost var book: Book

    ghost function View(): Controller
      reads this
    {
      Controller(maxIo, ttl, activeIo, actorDraining, leases, idleSince)
    }

    ghost predicate Valid()
      reads this
    {
      maxIo >= 1 && ttl > 0.0 && Inv(book) && book.state == View()
    }

    constructor (maxIo: nat, ttl: real, clock: real)
      requires maxIo >= 1 && ttl > 0.0
      ensures Valid() && book == Initial(maxIo, ttl, clock)
    {
      this.maxIo, this.ttl := maxIo, ttl;
      activeIo, actorDraining, leases, idleSince := 0, false, map[], Some(clock);
      book := Initial(maxIo, ttl, clock);
    }

    /** A lease is granted exactly when the actor is open and has room once stale reservations are gone. */
    method TryReserve(requestId: string, isIo: bool, service: string, revision: string, now: real, clock: real, id: string)
      returns (r: Result<Option<string>, Error>)
      requires Valid() && id !in book.granted
      modifies this
      ensures Valid() && book == Step(old(book), Op.TryReserve(requestId, isIo, service, revision, now, clock, id))
      ensures r == Ok(Some(id)) <==> isIo && !old(actorDraining) && |old(leases).Keys - ExpiredIds(old(View()), now)| < maxIo
      ensures r.Err? <==> !isIo && !old(actorDraining)
      ensures r.Ok? ==> r.value in {None, Some(id)}
      ensures r == Ok(Some(id)) ==> id in leases && leases[id].state == Reserved && !IsExpired(leases[id], now)
    {
      hide Step, ExpireBook, Inv, Accounted, ExpiredIds, Sound, Expire;
      ghost var op := Op.TryReserve(requestId, isIo, service, revision, now, clock, id);
      StepKeeps(book, op);
      ReserveIs(book, op);
      InvParts(book);
      ghost var next := Step(book, op);
      ExpireUnlocked(now, clock);
      SoundCounts(View());
      assert |leases| == |leases.Keys|;
      book := next;
      if actorDraining { return Ok(None); }
      if !isIo { return Err(NotIo); }
      if activeIo >= maxIo { return Ok(None); }
      if activeIo == 0 { idleSince := None; }
      activeIo := activeIo + 1;
      leases := leases[id := Lease(requestId, service, revision, Reserved, Some(now + ttl))];
      return Ok(Some(id));
    }

    /** Only a live reservation starts, and only once. */
    method Start(lease: string, now: real, clock: real) returns (r: Result<Lease, Error>)
      requires Valid()
      modifies this
      ensures Valid() && book == Step(old(book), Op.Start(lease, now, clock))
      ensures r.Ok? <==> lease in old(leases) && old(leases)[lease].state == Reserved && lease !in ExpiredIds(old(View()), now)
      ensures r.Ok? ==> lease in leases && r.value == leases[lease] && r.value == old(leases)[lease].(state := Running, expiresAt := None)
    {
      hide Accounted, Sound;
      StepKeeps(book, Op.Start(lease, now, clock));
      ghost var next := Step(book, Op.Start(lease, now, clock));
      ExpireUnlocked(now, clock);
      book := next;
      if lease !in leases { return Err(InvalidLease); }
      var l := leases[lease];
      if l.state != Reserved { return Err(InvalidLease); }
      l := l.(state := Running, expiresAt := None);
      leases := leases[lease := l];
      return Ok(l);
    }

    method Finish(lease: string, clock: real) returns (released: bool)
      requires Valid()
      modifies this
      ensures Valid() && book == Step(old(book), Op.Finish(lease, clock))
      ensures released <==> lease in old(leases)
      ensures lease !in leases
    {
      hide Accounted, Sound;
      StepKeeps(book, Op.Finish(lease, clock));
      book := Step(book, Op.Finish(lease, clock));
      if lease !in leases { return false; }
      PopLease(lease, clock);
      return true;
    }

    /** A running execution cannot be cancelled as a reservation. */
    method CancelReservation(lease: string, clock: real) returns (released: bool)
      requires Valid()
      modifies this
      ensures Valid() && book == Step(old(book), Op.Cancel(lease, clock))
      ensures released <==> lease in old(leases) && old(leases)[lease].state == Reserved
      ensures released ==> lease !in leases
      ensures !released ==> leases == old(leases)
    {
      hide Accounted, Sound;
      StepKeeps(book, Op.Cancel(lease, clock));
      book := Step(book, Op.Cancel(lease, clock));
      if lease !in leases || leases[lease].state != Reserved { return false; }
      PopLease(lease, clock);
      return true;
    }

    method DrainActor()
      requires Valid()
      modifies this
      ensures Valid() && book == Step(old(book), Op.Drain) && actorDraining && leases == old(leases)
    {
      hide Accounted, Sound;
      StepKeeps(book, Op.Drain);
      book := Step(book, Op.Drain);
      actorDraining := true;
    }

    /** The reported counts are the live leases; an actor is idle only when it holds none. */
    method Status(now: real, clock: real) returns (s: ActorStatus)
      requires Valid()
      modifies this
      ensures Valid() && book == Step(old(book), Op.Status(now, clock))
      ensures s.reserved == |Reservations(View())| && s.running == |Executions(View())|
      ensures s.reserved + s.running == s.activeIo == |leases| <= s.maxIo == maxIo
      ensures s.state.Draining? <==> old(actorDraining)
      ensures s.state.Idle? <==> !old(actorDraining) && leases == map[]
      ensures s.state.SaturatedIo? <==> !old(actorDraining) && |leases| == maxIo
      ensures s.idleFor == if leases == map[] && idleSince.value <= now then now - idleSince.value else 0.0
    {
      hide Accounted, ExpiredIds, Sound, Release;
      StepKeeps(book, Op.Status(now, clock));
      ghost var next := Step(book, Op.Status(now, clock));
      ExpireUnlocked(now, clock);
      SoundCounts(View());
      book := next;
      var state := StateUnlocked();
      var reserved := |set id | id in leases && leases[id].state == Reserved|;
      ReservedOrRunning(View());
      assert Reservations(View()) == set id | id in leases && leases[id].state == Reserved;
      var idleFor := if idleSince.Some? && now - idleSince.value > 0.0 then now - idleSince.value else 0.0;
      return ActorStatus(state, activeIo, maxIo, reserved, |leases| - reserved, idleFor);
    }

    function StateUnlocked(): ActorState
      reads this
    {
      if actorDraining then Draining
      else if activeIo >= maxIo then SaturatedIo
      else if activeIo != 0 then SharedIo
      else Idle
    }

    method ExpireUnlocked(now: real, clock: real)
      requires Sound(View())
      modifies this`activeIo, this`leases, this`idleSince
      ensures View() == Expire(old(View()), now, clock) && Sound(View())
    {
      hide Sound, Release, IsExpired;
      SoundCounts(View());
      ReleaseSound(View(), ExpiredIds(View(), now), clock);
      var expired := set id | id in leases && IsExpired(leases[id], now);
      assert expired == ExpiredIds(View(), now);
      ReleaseEach(expired, clock);
    }

    method ReleaseEach(ids: set<string>, clock: real)
      requires activeIo == |leases| && ids <= leases.Keys
      modifies this`activeIo, this`leases, this`idleSince
      ensures View() == Release(old(View()), ids, clock)
    {
      hide Release;
      ghost var s, done := View(), {};
      ReleaseNone(s, clock);
      var todo := ids;
      while todo != {}
        invariant done !! todo && done + todo == ids
        invariant View() == Release(s, done, clock)
        decreases |todo|
      {
        var id :| id in todo;
        ReleaseMore(s, done, id, clock);
        PopLease(id, clock);
        todo, done := todo - {id}, done + {id};
      }
      assert done == ids;
    }

    method PopLease(lease: string, clock: real)
      requires lease in leases
      modifies this`activeIo, this`leases, this`idleSince
      ensures View() == Release(old(View()), {lease}, clock)
    {
      leases := leases - {lease};
      ReleaseCapacityUnlocked(clock);
    }

    method ReleaseCapacityUnlocked(clock: real)
      modifies this`activeIo, this`idleSince
      ensures activeIo == old(activeIo) - 1
      ensures idleSince == if activeIo == 0 then Some(clock) else old(idleSince)
    {
      activeIo := activeIo - 1;
      if activeIo == 0 { idleSince := Some(clock); }
    }
  }
}
