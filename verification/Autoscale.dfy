/** Sizing a pool of actors: observed traffic, the wanted count, starting and reaping actors. */
module Autoscale {
  import opened Prelude

  datatype Settings = Settings(
    maxPerProfile: nat,
    targetConcurrency: nat,
    hotRate: real,
    window: real,
    warmSpares: nat,
    alpha: real,
    hotIdle: real,
    warmIdle: real)

  /** What the settings and the scheduler's constructor accept. */
  predicate ValidSettings(s: Settings) {
    && s.maxPerProfile >= 1 && s.targetConcurrency >= 1
    && s.hotRate > 0.0 && s.window > 0.0 && 0.0 < s.alpha <= 1.0
    && 0.0 < s.hotIdle <= s.warmIdle
  }

  // ---------------------------------------------------------------- traffic

  predicate NonDecreasing(times: seq<real>) {
    forall i, j | 0 <= i < j < |times| :: times[i] <= times[j]
  }

  /** The times after a cutoff, in order. */
  function After(times: seq<real>, cutoff: real): seq<real> {
    if times == [] then []
    else if times[0] > cutoff then [times[0]] + After(times[1..], cutoff)
    else After(times[1..], cutoff)
  }

  lemma {:induction false} AfterJoin(a: seq<real>, b: seq<real>, cutoff: real)
    ensures After(a + b, cutoff) == After(a, cutoff) + After(b, cutoff)
  {
    if a == [] {
      assert a + b == b;
    } else {
      AfterJoin(a[1..], b, cutoff);
      assert (a + b)[1..] == a[1..] + b;
      ConcatAssociates(if a[0] > cutoff then [a[0]] else [], After(a[1..], cutoff), After(b, cutoff));
    }
  }

  lemma ConcatAssociates(a: seq<real>, b: seq<real>, c: seq<real>)
    ensures a + b + c == a + (b + c) && (a == [] ==> a + b + c == b + c)
  {
  }

  /** A later cutoff forgets what an earlier one kept. */
  lemma {:induction false} AfterTwice(times: seq<real>, early: real, late: real)
    requires early <= late
    ensures After(After(times, early), late) == After(times, late)
  {
    if times != [] {
      AfterTwice(times[1..], early, late);
      var kept := After(times[1..], early);
      assert ([times[0]] + kept)[1..] == kept;
    }
  }

  predicate AllWithin(times: seq<real>, low: real, high: real) {
    forall i | 0 <= i < |times| :: low <= times[i] <= high
  }

  lemma {:induction false} AfterAll(times: seq<real>, cutoff: real)
    requires forall i | 0 <= i < |times| :: times[i] > cutoff
    ensures After(times, cutoff) == times
  {
    if times != [] { AfterAll(times[1..], cutoff); }
  }

  lemma {:induction false} AfterKeepsOrder(times: seq<real>, cutoff: real, low: real, high: real)
    requires NonDecreasing(times) && AllWithin(times, low, high)
    ensures NonDecreasing(After(times, cutoff)) && AllWithin(After(times, cutoff), low, high)
  {
    if times != [] {
      AfterKeepsOrder(times[1..], cutoff, times[0], high);
    }
  }

  /** Of ordered times exactly the end after the cutoff is kept. */
  lemma {:induction false} AfterIsSuffix(times: seq<real>, cutoff: real) returns (k: nat)
    requires NonDecreasing(times)
    ensures k <= |times| && After(times, cutoff) == times[k..]
    ensures (forall i | 0 <= i < k :: times[i] <= cutoff) && (forall i | k <= i < |times| :: times[i] > cutoff)
  {
    if times == [] || times[0] > cutoff {
      k := 0;
      AfterAll(times, cutoff);
    } else {
      k := AfterIsSuffix(times[1..], cutoff);
      assert times[1..][k..] == times[k + 1..];
      assert forall i | 1 <= i < |times| :: times[i] == times[1..][i - 1];
      k := k + 1;
    }
  }

  /** Appending an arrival to the cut history and cutting again forgets nothing that counts. */
  lemma Arrived(history: seq<real>, early: real, late: real, now: real)
    requires NonDecreasing(history) && (forall i | 0 <= i < |history| :: history[i] <= now)
    requires early <= late < now
    ensures NonDecreasing(history + [now]) && NonDecreasing(After(history, early) + [now])
    ensures After(After(history, early) + [now], late) == After(history + [now], late) == After(history, late) + [now]
  {
    if history != [] { AfterKeepsOrder(history, early, history[0], now); }
    AfterJoin(history, [now], late);
    AfterJoin(After(history, early), [now], late);
    AfterTwice(history, early, late);
    AfterAll([now], late);
  }

  function Blend(alpha: real, a: real, b: real): real {
    alpha * a + (1.0 - alpha) * b
  }

  lemma BlendIsBetween(alpha: real, a: real, b: real)
    requires 0.0 < alpha <= 1.0
    ensures var m := Blend(alpha, a, b);
      m - b == alpha * (a - b) && (a <= b ==> a <= m <= b) && (b <= a ==> b <= m <= a)
  {
    var m := Blend(alpha, a, b);
    assert m - b == alpha * (a - b);
    assert a - m == (1.0 - alpha) * (a - b);
    var gap := if a <= b then b - a else a - b;
    NonNegativeProduct(alpha, gap);
    NonNegativeProduct(1.0 - alpha, gap);
    assert a <= b ==> alpha * (a - b) == -(alpha * gap) && (1.0 - alpha) * (a - b) == -((1.0 - alpha) * gap);
  }

  lemma NonNegativeProduct(x: real, y: real)
    requires x >= 0.0 && y >= 0.0
    ensures x * y >= 0.0
  {
  }

  // ---------------------------------------------------------------- how many actors are wanted

  function Ceil(x: real): (c: int)
    ensures c as real - 1.0 < x <= c as real
  {
    -((-x).Floor)
  }

  /** The demand of one profile: requests in flight on open actors, waiting requests, rate and duration. */
  datatype Demand = Demand(active: nat, pending: nat, rate: real, ewma: real)

  predicate ValidDemand(d: Demand) { d.rate >= 0.0 && d.ewma > 0.0 }

  /** Requests in flight to expect from the rate and the average duration. */
  function Expected(d: Demand): real { d.rate * d.ewma }

  function Predicted(d: Demand): int {
    Larger(d.active + d.pending, Ceil(Expected(d)))
  }

  function HotActors(s: Settings, d: Demand): int
    requires s.targetConcurrency >= 1
  {
    Larger(1, Ceil(Predicted(d) as real / s.targetConcurrency as real))
  }

  function DesiredActorCount(s: Settings, d: Demand): int
    requires s.targetConcurrency >= 1
  {
    var hot := HotActors(s, d);
    var isHot := d.rate >= s.hotRate || hot > 1;
    Smaller(hot + (if isHot then s.warmSpares else 0), s.maxPerProfile)
  }

  lemma CeilOfQuotient(p: int, t: int, n: int)
    requires t >= 1
    ensures Ceil(p as real / t as real) <= n <==> p <= n * t
  {
    var q := p as real / t as real;
    assert q * t as real == p as real;
    if p <= n * t {
      assert p as real <= n as real * t as real;
      if q > n as real { Scale(n as real, q, t as real); }
    } else {
      assert p as real > n as real * t as real;
      if q <= n as real { assert q * t as real <= n as real * t as real by { ScaleAtMost(q, n as real, t as real); } }
    }
  }

  lemma Scale(a: real, b: real, t: real)
    requires a < b && t > 0.0
    ensures a * t < b * t
  {
  }

  lemma ScaleAtMost(a: real, b: real, t: real)
    requires a <= b && t > 0.0
    ensures a * t <= b * t
  {
  }

  /** Without spares and cap, the hot count is the least number of actors that covers the predicted load. */
  lemma HotIsLeast(s: Settings, d: Demand, n: int)
    requires s.targetConcurrency >= 1 && n >= 1
    ensures HotActors(s, d) <= n <==> Predicted(d) <= n * s.targetConcurrency
  {
    CeilOfQuotient(Predicted(d), s.targetConcurrency, n);
  }

  /** The wanted count is between one and the maximum, and below the maximum it covers the predicted load. */
  lemma DesiredCovers(s: Settings, d: Demand)
    requires ValidSettings(s) && ValidDemand(d)
    ensures 1 <= DesiredActorCount(s, d) <= s.maxPerProfile
    ensures DesiredActorCount(s, d) < s.maxPerProfile ==>
      var capacity := DesiredActorCount(s, d) * s.targetConcurrency;
      capacity >= d.active + d.pending && capacity as real >= d.rate * d.ewma
  {
    PredictedIsEnough(s, d);
    hide Predicted, HotActors;
    var n := DesiredActorCount(s, d);
    if n < s.maxPerProfile { HotIsLeast(s, d, n); }
  }

  lemma PredictedIsEnough(s: Settings, d: Demand)
    requires s.targetConcurrency >= 1
    ensures d.active + d.pending <= Predicted(d) && d.rate * d.ewma <= Predicted(d) as real && HotActors(s, d) >= 1
  {
  }

  /** That many actors have room for the requests in flight and waiting and for those to expect. */
  predicate Covers(s: Settings, d: Demand, n: int) {
    d.active + d.pending <= n * s.targetConcurrency && d.rate * d.ewma <= (n * s.targetConcurrency) as real
  }

  /** The fewest actors, and at least one, that cover the demand. */
  ghost predicate IsLeastCover(s: Settings, d: Demand, n: int) {
    n >= 1 && Covers(s, d, n) && forall m | 1 <= m < n :: !Covers(s, d, m)
  }

  /** The predicted load fits exactly when both its parts do. */
  lemma CoversExactly(s: Settings, d: Demand, n: int)
    requires s.targetConcurrency >= 1
    ensures Predicted(d) <= n * s.targetConcurrency <==> Covers(s, d, n)
  {
    var c := n * s.targetConcurrency;
    var x := Expected(d);
    assert Ceil(x) <= c <==> x <= c as real;
  }

  lemma HotIsLeastCover(s: Settings, d: Demand)
    requires s.targetConcurrency >= 1
    ensures IsLeastCover(s, d, HotActors(s, d))
  {
    AtLeastOne(s, d);
    hide Predicted, HotActors, Covers;
    var h := HotActors(s, d);
    HotIsLeast(s, d, h);
    CoversExactly(s, d, h);
    forall m | 1 <= m < h ensures !Covers(s, d, m) {
      HotIsLeast(s, d, m);
      CoversExactly(s, d, m);
    }
  }

  /**
   A profile is hot when its rate is high or one actor does not cover its demand.
   While it is, exactly the spares come on top of the fewest actors that do, up
   to the maximum; a profile that is not hot wants a single actor.
   */
  lemma DesiredExactly(s: Settings, d: Demand, cover: int)
    requires ValidSettings(s) && IsLeastCover(s, d, cover)
    ensures DesiredActorCount(s, d) ==
      if d.rate >= s.hotRate || !Covers(s, d, 1) then Smaller(cover + s.warmSpares, s.maxPerProfile) else 1
  {
    HotIsLeastCover(s, d);
    hide HotActors, Covers;
    assert HotActors(s, d) == cover;
  }

  predicate AtMost(d: Demand, e: Demand) {
    d.active <= e.active && d.pending <= e.pending && d.rate <= e.rate && d.ewma <= e.ewma
  }

  /** More demand never asks for fewer actors. */
  lemma DesiredIsMonotone(s: Settings, d: Demand, e: Demand)
    requires ValidSettings(s) && ValidDemand(d) && ValidDemand(e) && AtMost(d, e)
    ensures Predicted(d) <= Predicted(e)
    ensures DesiredActorCount(s, d) <= DesiredActorCount(s, e)
  {
    PredictedIsMonotone(s, d, e);
    hide Predicted, HotActors;
    HotIsLeast(s, e, HotActors(s, e));
    HotIsLeast(s, d, HotActors(s, e));
  }

  lemma PredictedIsMonotone(s: Settings, d: Demand, e: Demand)
    requires ValidDemand(d) && ValidDemand(e) && AtMost(d, e) && s.targetConcurrency >= 1
    ensures Predicted(d) <= Predicted(e) && HotActors(s, d) >= 1 && HotActors(s, e) >= 1
  {
    hide Ceil, HotActors, Expected;
    ExpectedIsMonotone(d, e);
    CeilIsMonotone(Expected(d), Expected(e));
    AtLeastOne(s, d);
    AtLeastOne(s, e);
  }

  lemma ExpectedIsMonotone(d: Demand, e: Demand)
    requires ValidDemand(d) && ValidDemand(e) && AtMost(d, e)
    ensures Expected(d) <= Expected(e)
  {
    ProductIsMonotone(d.rate, e.rate, d.ewma, e.ewma);
  }

  lemma ProductIsMonotone(a: real, b: real, x: real, y: real)
    requires 0.0 <= a <= b && 0.0 <= x <= y
    ensures a * x <= b * y
  {
    var both, right := (b - a) * x, b * (y - x);
    NonNegativeProduct(b - a, x);
    NonNegativeProduct(b, y - x);
    assert b * y - a * x == both + right;
  }

  lemma AtLeastOne(s: Settings, d: Demand)
    requires s.targetConcurrency >= 1
    ensures HotActors(s, d) >= 1
  {
    hide Predicted, Ceil;
  }

  lemma CeilIsMonotone(x: real, y: real)
    requires x <= y
    ensures Ceil(x) <= Ceil(y)
  {
  }

  datatype ActorReport = ActorReport(draining: bool, activeIo: nat)

  /** Requests in flight on the actors that still take new ones. */
  function ActiveIo(reports: seq<ActorReport>): nat {
    if reports == [] then 0
    else
      var last := reports[|reports| - 1];
      ActiveIo(reports[..|reports| - 1]) + (if last.draining then 0 else last.activeIo)
  }

  function TotalIo(reports: seq<ActorReport>): nat {
    if reports == [] then 0 else TotalIo(reports[..|reports| - 1]) + reports[|reports| - 1].activeIo
  }

  lemma {:induction false} TotalJoin(a: seq<ActorReport>, b: seq<ActorReport>)
    ensures TotalIo(a + b) == TotalIo(a) + TotalIo(b)
  {
    if b == [] {
      assert a + b == a;
    } else {
      TotalJoin(a, b[..|b| - 1]);
      assert (a + b)[..|a + b| - 1] == a + b[..|b| - 1];
    }
  }

  /** The load of all actors is the load of the open ones and of the draining ones. */
  lemma {:induction false} ActiveIoIsOpenLoad(reports: seq<ActorReport>) returns (open: seq<ActorReport>, draining: seq<ActorReport>)
    ensures multiset(open) + multiset(draining) == multiset(reports)
    ensures (forall r | r in open :: !r.draining) && (forall r | r in draining :: r.draining)
    ensures ActiveIo(reports) == TotalIo(open) && TotalIo(reports) == TotalIo(open) + TotalIo(draining)
  {
    if reports == [] {
      open, draining := [], [];
    } else {
      var last := reports[|reports| - 1];
      open, draining := ActiveIoIsOpenLoad(reports[..|reports| - 1]);
      assert reports == reports[..|reports| - 1] + [last];
      if last.draining {
        TotalJoin(draining, [last]);
        draining := draining + [last];
      } else {
        TotalJoin(open, [last]);
        open := open + [last];
      }
      assert [last][..0] == [];
    }
  }

  class ProfileTraffic {
    const settings: Settings
    var arrivals: seq<real>
    var lastRequestAt: Option<real>
    var durationEwma: real
    // every arrival so far and the latest clock reading
    ghost var history: seq<real>
    ghost var clock: real

    ghost predicate Valid()
      reads this
    {
      && ValidSettings(settings) && durationEwma > 0.0
      && NonDecreasing(history) && (forall i | 0 <= i < |history| :: history[i] <= clock)
      && NonDecreasing(arrivals)
      && (exists cutoff :: cutoff <= clock - settings.window && arrivals == After(history, cutoff))
      && lastRequestAt == if history == [] then None else Some(history[|history| - 1])
    }

    constructor (settings: Settings, clock: real)
      requires ValidSettings(settings)
      ensures Valid() && history == [] && this.clock == clock && this.settings == settings && durationEwma == 1.0
    {
      this.settings, arrivals, lastRequestAt, durationEwma := settings, [], None, 1.0;
      history, this.clock := [], clock;
      new;
      assert After(history, clock - settings.window) == [];
    }

    /** The deque ends up as the whole history cut to the window. */
    method RecordArrival(now: real)
      requires Valid() && clock <= now
      modifies this
      ensures Valid() && history == old(history) + [now] && clock == now
      ensures arrivals == After(history, now - settings.window) && now in arrivals && lastRequestAt == Some(now)
      ensures durationEwma == old(durationEwma)
    {
      ghost var cutoff :| cutoff <= clock - settings.window && arrivals == After(history, cutoff);
      Arrived(history, cutoff, now - settings.window, now);
      arrivals := arrivals + [now];
      lastRequestAt := Some(now);
      history, clock := history + [now], now;
      TrimArrivals(now);
    }

    /** The rate is the naive count over all history, divided by the window. */
    method RequestRate(now: real) returns (rate: real)
      requires Valid() && clock <= now
      modifies this`arrivals, this`clock
      ensures Valid() && clock == now && arrivals == After(history, now - settings.window)
      ensures rate == |After(history, now - settings.window)| as real / settings.window
    {
      ghost var cutoff :| cutoff <= clock - settings.window && arrivals == After(history, cutoff);
      AfterTwice(history, cutoff, now - settings.window);
      clock := now;
      TrimArrivals(now);
      return |arrivals| as real / settings.window;
    }

    method TrimArrivals(now: real)
      requires NonDecreasing(arrivals)
      modifies this`arrivals
      ensures arrivals == After(old(arrivals), now - settings.window) && NonDecreasing(arrivals)
    {
      var cutoff := now - settings.window;
      while arrivals != [] && arrivals[0] <= cutoff
        invariant NonDecreasing(arrivals) && After(arrivals, cutoff) == After(old(arrivals), cutoff)
        decreases |arrivals|
      {
        arrivals := arrivals[1..];
      }
      AfterAll(arrivals, cutoff);
    }

    /** The average moves towards the new duration and never past it. */
    method RecordDuration(duration: real)
      requires Valid()
      modifies this`durationEwma
      ensures Valid()
      ensures var d := if duration < 0.001 then 0.001 else duration;
        && (d <= old(durationEwma) ==> d <= durationEwma <= old(durationEwma))
        && (old(durationEwma) <= d ==> old(durationEwma) <= durationEwma <= d)
        && durationEwma - old(durationEwma) == settings.alpha * (d - old(durationEwma))
    {
      hide Blend;
      var d := if duration < 0.001 then 0.001 else duration;
      BlendIsBetween(settings.alpha, d, durationEwma);
      durationEwma := Blend(settings.alpha, d, durationEwma);
    }

    /** The wanted count follows from the open actors' load, the waiting requests and the whole traffic history. */
    method CountDesired(reports: seq<ActorReport>, pending: nat, now: real) returns (n: int)
      requires Valid() && clock <= now
      modifies this`arrivals, this`clock
      ensures Valid() && clock == now
      ensures n == DesiredActorCount(settings,
        Demand(ActiveIo(reports), pending, |After(history, now - settings.window)| as real / settings.window, durationEwma))
      ensures 1 <= n <= settings.maxPerProfile
    {
      hide Predicted, HotActors;
      var active := 0;
      for i := 0 to |reports|
        invariant active == ActiveIo(reports[..i])
      {
        assert reports[..i + 1][..i] == reports[..i];
        if !reports[i].draining { active := active + reports[i].activeIo; }
      }
      assert reports[..|reports|] == reports;
      var rate := RequestRate(now);
      var demand := Demand(active, pending, rate, durationEwma);
      RateIsNonNegative(|After(history, now - settings.window)|, settings.window);
      DesiredCovers(settings, demand);
      return DesiredActorCount(settings, demand);
    }
  }

  lemma RateIsNonNegative(n: nat, window: real)
    requires window > 0.0
    ensures n as real / window >= 0.0
  {
  }

  // ---------------------------------------------------------------- starting and reaping actors

  /** A profile and a replica number. */
  datatype Key = Key(profile: string, replica: nat)

  datatype ActorState = Idle | SharedIo | SaturatedIo | Draining

  /** A candidate's status, and what the reaper sees when it comes to it. */
  datatype Visit = Visit(
    replica: nat, state: ActorState, idleFor: real, reserved: nat, running: nat,
    lastRequestAt: Option<real>, now: real,
    latestReserved: nat, latestRunning: nat)

  predicate ProfileIsCold(lastRequestAt: Option<real>, now: real, timeout: real) {
    lastRequestAt.None? || now - lastRequestAt.value >= timeout
  }

  predicate LongIdle(v: Visit, timeout: real) {
    v.state.Idle? && v.idleFor >= timeout
  }

  predicate DrainedAndEmpty(v: Visit) {
    v.state.Draining? && v.reserved == 0 && v.running == 0
  }

  predicate StillEmpty(v: Visit) { v.latestReserved == 0 && v.latestRunning == 0 }

  /** One candidate is reaped, given how many actors are left and how many are wanted. */
  predicate Reaps(s: Settings, v: Visit, current: int, desired: int) {
    && (LongIdle(v, if current == 1 then s.warmIdle else s.hotIdle) || DrainedAndEmpty(v))
    && (if current == 1 then ProfileIsCold(v.lastRequestAt, v.now, s.warmIdle) else current > desired)
    && StillEmpty(v)
  }

  function Reaped(s: Settings, vs: seq<Visit>, current: int, desired: int): seq<Visit> {
    if vs == [] then []
    else if Reaps(s, vs[0], current, desired) then [vs[0]] + Reaped(s, vs[1..], current - 1, desired)
    else Reaped(s, vs[1..], current, desired)
  }

  /** A pass leaves the wanted actors or none, and none only when the profile was cold when the last one went. */
  lemma {:induction false} PassKeepsDesired(s: Settings, vs: seq<Visit>, n: int, desired: int)
    requires desired >= 1 && |vs| <= n
    ensures var gone := Reaped(s, vs, n, desired);
      && |gone| <= |vs|
      && (n - |gone| >= Smaller(n, desired) || n == |gone|)
      && (n == |gone| > 0 ==>
        && ProfileIsCold(gone[|gone| - 1].lastRequestAt, gone[|gone| - 1].now, s.warmIdle)
        && (LongIdle(gone[|gone| - 1], s.warmIdle) || DrainedAndEmpty(gone[|gone| - 1])))
      && (forall v | v in gone :: v in vs && StillEmpty(v))
  {
    if vs != [] {
      if Reaps(s, vs[0], n, desired) {
        PassKeepsDesired(s, vs[1..], n - 1, desired);
      } else {
        PassKeepsDesired(s, vs[1..], n, desired);
      }
    }
  }

  /** Long idle or drained, and seen empty again. */
  predicate Reapable(s: Settings, v: Visit) {
    (LongIdle(v, s.warmIdle) || DrainedAndEmpty(v)) && StillEmpty(v)
  }

  predicate AllReapable(s: Settings, vs: seq<Visit>, cold: bool) {
    forall v | v in vs :: Reapable(s, v) && ProfileIsCold(v.lastRequestAt, v.now, s.warmIdle) == cold
  }

  /** How many of n actors go when all can: those that are not wanted, and the last one when the profile is cold. */
  function Surplus(n: nat, desired: int, cold: bool): nat {
    if cold && (n == 1 || desired == 1) then n else Larger(0, n - desired)
  }

  /**
   A pool whose actors can all be reaped shrinks in one pass, from the front of
   the list of candidates, to the wanted count, and to zero when the profile is
   cold and a single actor is wanted or left.
   */
  lemma IdlePassConverges(s: Settings, vs: seq<Visit>, desired: int, cold: bool)
    requires desired >= 1 && ValidSettings(s) && AllReapable(s, vs, cold)
    ensures Reaped(s, vs, |vs|, desired) == vs[..Surplus(|vs|, desired, cold)]
  {
    IdlePrefix(s, vs, |vs|, desired, cold);
  }

  lemma {:induction false} IdlePrefix(s: Settings, vs: seq<Visit>, n: nat, desired: int, cold: bool)
    requires desired >= 1 && ValidSettings(s) && n >= |vs| && AllReapable(s, vs, cold)
    ensures Reaped(s, vs, n, desired) == vs[..Smaller(|vs|, Surplus(n, desired, cold))]
  {
    if vs != [] {
      assert vs[0] in vs;
      var k := Smaller(|vs|, Surplus(n, desired, cold));
      if Surplus(n, desired, cold) > 0 {
        IdlePrefix(s, vs[1..], n - 1, desired, cold);
        if |vs| > 1 { SurplusStep(n, desired, cold); }
        assert vs[..k] == [vs[0]] + vs[1..][..k - 1];
      } else {
        IdlePrefix(s, vs[1..], n, desired, cold);
      }
    }
  }

  lemma SurplusStep(n: nat, desired: int, cold: bool)
    requires n >= 2 && desired >= 1 && Surplus(n, desired, cold) > 0
    ensures Surplus(n - 1, desired, cold) == Surplus(n, desired, cold) - 1
  {
  }

  /** The last actor goes exactly when it is long idle or drained, the profile is cold, and it is seen empty again. */
  lemma LastGoesExactly(s: Settings, v: Visit, desired: int)
    ensures v in Reaped(s, [v], 1, desired) <==>
      && ((v.state == Idle && v.idleFor >= s.warmIdle) || (v.state == Draining && v.reserved + v.running == 0))
      && (v.lastRequestAt == None || v.now - v.lastRequestAt.value >= s.warmIdle)
      && v.latestReserved + v.latestRunning == 0
  {
    assert [v][1..] == [];
  }

  /** A pass over candidates is a pass over the first of them and one over the others. */
  lemma {:induction false} ReapedJoin(s: Settings, a: seq<Visit>, b: seq<Visit>, n: int, desired: int)
    ensures Reaped(s, a + b, n, desired) == Reaped(s, a, n, desired) + Reaped(s, b, n - |Reaped(s, a, n, desired)|, desired)
  {
    hide Reaps;
    if a == [] {
      assert a + b == b;
    } else {
      var left := if Reaps(s, a[0], n, desired) then n - 1 else n;
      ReapedJoin(s, a[1..], b, left, desired);
      assert (a + b)[0] == a[0] && (a + b)[1..] == a[1..] + b;
    }
  }

  /** The candidates by replica number, the highest first. */
  function Descending(candidates: seq<Visit>): seq<Visit> {
    if candidates == [] then [] else InsertDescending(candidates[0], Descending(candidates[1..]))
  }

  function InsertDescending(v: Visit, sorted: seq<Visit>): seq<Visit> {
    if sorted == [] || v.replica >= sorted[0].replica then [v] + sorted
    else [sorted[0]] + InsertDescending(v, sorted[1..])
  }

  predicate Falling(vs: seq<Visit>) {
    forall i, j | 0 <= i < j < |vs| :: vs[i].replica > vs[j].replica
  }

  lemma {:induction false} InsertFalls(v: Visit, sorted: seq<Visit>)
    requires Falling(sorted) && forall w | w in sorted :: w.replica != v.replica
    ensures Falling(InsertDescending(v, sorted))
    ensures forall w :: w in InsertDescending(v, sorted) <==> w == v || w in sorted
    ensures |InsertDescending(v, sorted)| == |sorted| + 1
  {
    if sorted == [] {
    } else if v.replica >= sorted[0].replica {
      FallsBelow(sorted);
      assert sorted[0] in sorted;
      PrependFalls(v, sorted);
    } else {
      var rest := sorted[1..];
      assert sorted == [sorted[0]] + rest;
      FallsBelow(sorted);
      InsertFalls(v, rest);
      PrependFalls(sorted[0], InsertDescending(v, rest));
    }
  }

  lemma FallsBelow(vs: seq<Visit>)
    requires Falling(vs) && vs != []
    ensures Falling(vs[1..]) && forall w | w in vs[1..] :: vs[0].replica > w.replica
  {
    assert forall i | 0 <= i < |vs| - 1 :: vs[1..][i] == vs[i + 1];
  }

  lemma PrependFalls(v: Visit, vs: seq<Visit>)
    requires Falling(vs) && forall w | w in vs :: v.replica > w.replica
    ensures Falling([v] + vs)
  {
    var r := [v] + vs;
    forall i, j | 0 <= i < j < |r| ensures r[i].replica > r[j].replica {
      if i == 0 { assert r[j] == vs[j - 1] && vs[j - 1] in vs; } else { assert r[i] == vs[i - 1] && r[j] == vs[j - 1]; }
    }
  }

  /** The same candidates, each once, with falling replica numbers. */
  lemma {:induction false} DescendingFalls(candidates: seq<Visit>)
    requires forall i, j | 0 <= i < j < |candidates| :: candidates[i].replica != candidates[j].replica
    ensures Falling(Descending(candidates)) && |Descending(candidates)| == |candidates|
    ensures forall v :: v in Descending(candidates) <==> v in candidates
  {
    if candidates != [] {
      DescendingFalls(candidates[1..]);
      InsertFalls(candidates[0], Descending(candidates[1..]));
      assert candidates == [candidates[0]] + candidates[1..];
    }
  }

  /** Of several actors one goes exactly when more are left than wanted and it is idle or drained, and seen empty again. */
  lemma SpareGoesExactly(s: Settings, v: Visit, n: int, desired: int)
    requires n >= 2
    ensures v in Reaped(s, [v], n, desired) <==>
      && n > desired
      && ((v.state == Idle && v.idleFor >= s.hotIdle) || (v.state == Draining && v.reserved + v.running == 0))
      && v.latestReserved + v.latestRunning == 0
  {
    assert [v][1..] == [];
  }

  function Replicas(keys: set<Key>, profile: string): set<nat> {
    set k | k in keys && k.profile == profile :: k.replica
  }

  function Range(n: nat): (r: set<nat>)
    ensures |r| == n && forall k :: k in r <==> 0 <= k < n
  {
    if n == 0 then {} else Range(n - 1) + {n - 1}
  }

  /** With fewer occupied replicas than the limit, one below the limit is free. */
  lemma FreeReplicaExists(occupied: set<nat>, limit: nat)
    requires |occupied| < limit
    ensures exists k: nat :: k < limit && k !in occupied
  {
    if forall k: nat | k < limit :: k in occupied {
      assert Range(limit) <= occupied;
      SubsetSize(Range(limit), occupied);
    }
  }

  lemma AddReplica(keys: set<Key>, key: Key)
    ensures forall p :: Replicas(keys + {key}, p) == Replicas(keys, p) + (if p == key.profile then {key.replica} else {})
    ensures key in keys ==> key.replica in Replicas(keys, key.profile)
  {
    forall p
      ensures Replicas(keys + {key}, p) == Replicas(keys, p) + (if p == key.profile then {key.replica} else {})
    {
      forall r
        ensures r in Replicas(keys + {key}, p) <==> r in Replicas(keys, p) || (p == key.profile && r == key.replica)
      {
        if r in Replicas(keys, p) { assert Key(p, r) in keys; }
        if p == key.profile && r == key.replica { assert key in keys + {key}; }
      }
    }
  }

  class Pool {
    const settings: Settings
    var actors: set<Key>
    var creating: set<Key>
    // the creation tasks that are done but not yet dropped
    var finished: set<Key>

    constructor (settings: Settings)
      ensures this.settings == settings && actors == {} && creating == {} && finished == {}
    {
      this.settings, actors, creating, finished := settings, {}, {}, {};
    }

    ghost function Occupied(profile: string): set<nat>
      reads this
    {
      Replicas(actors, profile) + Replicas(creating, profile)
    }

    /** Starts the missing replicas: existing ones keep their numbers and the new ones are free numbers below the limit. Returns the unfinished tasks. */
    method ScheduleActorCount(profile: string, wanted: int) returns (tasks: set<nat>)
      modifies this`creating, this`finished
      ensures old(creating) <= creating && finished == old(finished) - (creating - old(creating))
      ensures |Occupied(profile)| == Larger(|old(Occupied(profile))|, Smaller(wanted, settings.maxPerProfile))
      ensures old(Occupied(profile)) <= Occupied(profile)
      ensures forall k | k in creating - old(creating) ::
        k.profile == profile && k.replica < settings.maxPerProfile && k.replica !in old(Occupied(profile))
      ensures tasks == Replicas(creating - finished, profile)
    {
      hide Replicas;
      var desired := Smaller(wanted, settings.maxPerProfile);
      var occupied := Replicas(actors, profile) + Replicas(creating, profile);
      while |occupied| < desired
        invariant occupied == Occupied(profile) && old(Occupied(profile)) <= occupied && old(creating) <= creating
        invariant finished == old(finished) - (creating - old(creating))
        invariant |occupied| == |old(Occupied(profile))| || |occupied| <= desired
        invariant |old(Occupied(profile))| <= |occupied|
        invariant forall k | k in creating - old(creating) ::
            k.profile == profile && k.replica < settings.maxPerProfile && k.replica !in old(Occupied(profile))
        decreases desired - |occupied|
      {
        var replica := FirstFree(occupied);
        FreeReplicaExists(occupied, settings.maxPerProfile);
        if replica.None? {
          assert false;
          break;
        }
        AddReplica(creating, Key(profile, replica.value));
        creating, finished := creating + {Key(profile, replica.value)}, finished - {Key(profile, replica.value)};
        occupied := occupied + {replica.value};
      }
      return Replicas(creating - finished, profile);
    }

    /** The lowest free replica number below the limit, if any. */
    method FirstFree(occupied: set<nat>) returns (free: Option<nat>)
      ensures free.None? ==> forall k: nat | k < settings.maxPerProfile :: k in occupied
      ensures free.Some? ==> free.value < settings.maxPerProfile && free.value !in occupied
      ensures free.Some? ==> forall k: nat | k < free.value :: k in occupied
    {
      var k := 0;
      while k < settings.maxPerProfile
        invariant 0 <= k <= settings.maxPerProfile && forall j: nat | j < k :: j in occupied
      {
        if k !in occupied { return Some(k); }
        k := k + 1;
      }
      return None;
    }

    /** One reaping pass over the candidates of a profile, from the highest replica down. */
    method ReapPass(profile: string, candidates: seq<Visit>, desired: int) returns (reaped: nat)
      requires desired >= 1
      requires forall i, j | 0 <= i < j < |candidates| :: candidates[i].replica != candidates[j].replica
      requires forall v | v in candidates :: Key(profile, v.replica) in actors
      modifies this`actors
      ensures var gone := Reaped(settings, Descending(candidates), |Replicas(old(actors), profile)|, desired);
        && reaped == |gone|
        && actors == old(actors) - KeysOf(profile, gone)
        && |Replicas(actors, profile)| == |Replicas(old(actors), profile)| - reaped
      ensures var n, left := |Replicas(old(actors), profile)|, |Replicas(actors, profile)|;
        left >= Smaller(n, desired) || left == 0
      ensures forall cold | ValidSettings(settings) && AllReapable(settings, candidates, cold) && |candidates| == |Replicas(old(actors), profile)| ::
        |Replicas(actors, profile)| == |candidates| - Surplus(|candidates|, desired, cold)
    {
      hide Reaped, Replicas, Surplus, Descending, KeysOf, AllReapable, ValidSettings;
      var vs := Descending(candidates);
      DescendingFalls(candidates);
      reaped := 0;
      var current := |Replicas(actors, profile)|;
      ghost var n := current;
      ghost var gone: seq<Visit> := [];
      var i := 0;
      CandidatesFit(actors, profile, vs);
      NoKeys(profile);
      while i < |vs|
        invariant 0 <= i <= |vs| && current == n - reaped && reaped == |gone|
        invariant current == |Replicas(actors, profile)|
        invariant InPool(actors, profile, vs[i..])
        invariant Reaped(settings, vs, n, desired) == gone + Reaped(settings, vs[i..], current, desired)
        invariant actors == old(actors) - KeysOf(profile, gone)
      {
        var v := vs[i];
        ReapedStep(settings, vs, i, current, desired);
        StillInPool(actors, profile, vs, i);
        i := i + 1;
        var final := current == 1;
        var timeout := if final then settings.warmIdle else settings.hotIdle;
        var idleLongEnough := v.state.Idle? && v.idleFor >= timeout;
        var drainedAndEmpty := v.state.Draining? && v.reserved == 0 && v.running == 0;
        if !idleLongEnough && !drainedAndEmpty { continue; }
        if !final && current <= desired { continue; }
        if final && !ProfileIsCold(v.lastRequestAt, v.now, timeout) { continue; }
        if v.latestReserved > 0 || v.latestRunning > 0 { continue; }
        RemoveReplica(actors, Key(profile, v.replica));
        OneMoreKey(profile, gone, v);
        actors := actors - {Key(profile, v.replica)};
        gone := gone + [v];
        current := current - 1;
        reaped := reaped + 1;
      }
      ReapedNone(settings, current, desired);
      assert gone == Reaped(settings, vs, n, desired) by { assert vs[i..] == [] && gone + [] == gone; }
      PassLeaves(settings, candidates, n, desired);
    }
  }

  function KeysOf(profile: string, vs: seq<Visit>): set<Key> {
    set v | v in vs :: Key(profile, v.replica)
  }

  lemma NoKeys(profile: string)
    ensures KeysOf(profile, []) == {}
  {
  }

  lemma OneMoreKey(profile: string, vs: seq<Visit>, v: Visit)
    ensures KeysOf(profile, vs + [v]) == KeysOf(profile, vs) + {Key(profile, v.replica)}
  {
    assert forall w :: w in vs + [v] <==> w in vs || w == v;
  }

  predicate InPool(actors: set<Key>, profile: string, vs: seq<Visit>) {
    forall v | v in vs :: Key(profile, v.replica) in actors
  }

  lemma StillInPool(actors: set<Key>, profile: string, vs: seq<Visit>, i: nat)
    requires i < |vs| && Falling(vs) && InPool(actors, profile, vs[i..])
    ensures Key(profile, vs[i].replica) in actors
    ensures InPool(actors - {Key(profile, vs[i].replica)}, profile, vs[i + 1..]) && InPool(actors, profile, vs[i + 1..])
  {
    assert vs[i] in vs[i..];
    assert forall w | w in vs[i + 1..] :: w in vs[i..] && w.replica != vs[i].replica;
  }

  /** What a pass over all candidates leaves of n actors. */
  lemma PassLeaves(s: Settings, candidates: seq<Visit>, n: nat, desired: int)
    requires desired >= 1 && |candidates| <= n
    requires forall i, j | 0 <= i < j < |candidates| :: candidates[i].replica != candidates[j].replica
    ensures var left := n - |Reaped(s, Descending(candidates), n, desired)|;
      && (left >= Smaller(n, desired) || left == 0)
      && forall cold | ValidSettings(s) && AllReapable(s, candidates, cold) && |candidates| == n ::
           left == n - Surplus(n, desired, cold)
  {
    hide Reaped, Descending, Surplus;
    var vs := Descending(candidates);
    DescendingFalls(candidates);
    PassKeepsDesired(s, vs, n, desired);
    forall cold | ValidSettings(s) && AllReapable(s, candidates, cold) && |candidates| == n
      ensures |Reaped(s, vs, n, desired)| == Surplus(n, desired, cold)
    {
      SurplusFits(n, desired, cold);
      IdlePassConverges(s, vs, desired, cold);
    }
  }

  lemma SurplusFits(n: nat, desired: int, cold: bool)
    requires desired >= 1
    ensures Surplus(n, desired, cold) <= n
  {
  }

  lemma ReapedStep(s: Settings, vs: seq<Visit>, i: nat, current: int, desired: int)
    requires i < |vs|
    ensures Reaped(s, vs[i..], current, desired) ==
      if Reaps(s, vs[i], current, desired) then [vs[i]] + Reaped(s, vs[i + 1..], current - 1, desired)
      else Reaped(s, vs[i + 1..], current, desired)
  {
    assert vs[i..][0] == vs[i] && vs[i..][1..] == vs[i + 1..];
  }

  lemma ReapedNone(s: Settings, current: int, desired: int)
    ensures Reaped(s, [], current, desired) == []
  {
  }

  lemma RemoveReplica(keys: set<Key>, key: Key)
    requires key in keys
    ensures |Replicas(keys - {key}, key.profile)| == |Replicas(keys, key.profile)| - 1
  {
    assert key.replica in Replicas(keys, key.profile);
    assert Replicas(keys - {key}, key.profile) == Replicas(keys, key.profile) - {key.replica} by {
      forall r
        ensures r in Replicas(keys - {key}, key.profile) <==> r in Replicas(keys, key.profile) && r != key.replica
      {
        if r in Replicas(keys, key.profile) && r != key.replica { assert Key(key.profile, r) in keys - {key}; }
      }
    }
  }

  /** Distinct candidates are at most as many as the profile's actors. */
  lemma {:induction false} CandidatesFit(keys: set<Key>, profile: string, vs: seq<Visit>)
    requires forall i, j | 0 <= i < j < |vs| :: vs[i].replica != vs[j].replica
    requires forall v | v in vs :: Key(profile, v.replica) in keys
    ensures |vs| <= |Replicas(keys, profile)|
  {
    if vs != [] {
      var v := vs[0];
      assert v in vs;
      RemoveReplica(keys, Key(profile, v.replica));
      assert forall w | w in vs[1..] :: w in vs && w.replica != v.replica;
      CandidatesFit(keys - {Key(profile, v.replica)}, profile, vs[1..]);
    }
  }
}
