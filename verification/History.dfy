/** Whole runs of publications of one service, and the contract table they fill. */
module History {
  import opened Prelude
  import opened Names
  import opened Numbering
  import opened Messages
  import opened EndpointFacts
  import opened Generator
  import opened GeneratorFacts
  import opened Evolution
  import opened Regeneration

  // ---------------------------------------------------------------- publishing

  /** The contracts of one service, oldest first. */
  type Ledger = seq<Contract>

  function Latest(h: Ledger): Option<Contract> {
    if h == [] then None else Some(h[|h| - 1])
  }

  /** Registration: None when it is refused. */
  function Register(h: Ledger, c: Contract): Option<Ledger> {
    if exists k | k in h :: k.descriptor == c.descriptor then
      if exists k | k in h :: k.descriptor == c.descriptor && k.version != c.version then None else Some(h)
    else if Latest(h).Some? && !Latest(h).value.version.Less(c.version) then None
    else Some(h + [c])
  }

  /** One publication as a transaction: a failure leaves the ledger as it was. */
  ghost function Publish(id: Identity, h: Ledger, endpoints: seq<Endpoint>): Ledger {
    match Prepare(id, endpoints, Latest(h))
    case None => h
    case Some(c) =>
      match Register(h, c)
      case None => h
      case Some(r) => r
  }

  /** The ledger after a run of requests. */
  ghost function Run(id: Identity, requests: seq<seq<Endpoint>>): Ledger {
    if requests == [] then []
    else Publish(id, Run(id, requests[..|requests| - 1]), requests[|requests| - 1])
  }

  predicate ValidRequests(requests: seq<seq<Endpoint>>) {
    forall r | r in requests :: UniqueIds(r)
  }

  // ---------------------------------------------------------------- the invariant of a ledger

  /** What holds between a contract and the next one. */
  ghost predicate Succeeds(a: Contract, b: Contract) {
    && a.version.Less(b.version)
    && (forall n | n in a.descriptor.messages && n in b.descriptor.messages ::
         Retains(a.descriptor.messages[n], b.descriptor.messages[n]))
    && (a.version.major == b.version.major ==> DescriptorExtends(a.descriptor, b.descriptor))
  }

  ghost predicate Lineage(id: Identity, h: Ledger) {
    && (forall i | 0 <= i < |h| :: Sound(id, h[i]))
    && (forall i | 0 <= i < |h| - 1 :: Succeeds(h[i], h[i + 1]))
    && (forall i, j | 0 <= i < j < |h| :: h[i].descriptor != h[j].descriptor)
  }

  lemma PreparedSucceeds(id: Identity, endpoints: seq<Endpoint>, previous: Contract)
    requires UniqueIds(endpoints) && Sound(id, previous) && Prepare(id, endpoints, Some(previous)).Some?
    ensures var c := Prepare(id, endpoints, Some(previous)).value;
      && Sound(id, c)
      && (c.descriptor == previous.descriptor ==> c == previous)
      && (c.descriptor != previous.descriptor ==> Succeeds(previous, c))
  {
    hide Coherent, WellFormed, Build, ProgressOk, Tidy, CompiledFrom, IsBreaking, NumberedAfter, Prepare, Retains, DescriptorExtends, Follows;
    var c := Prepare(id, endpoints, Some(previous)).value;
    var p := PreparedFacts(id, endpoints, Some(previous));
    PreparedIsSound(id, p, Some(previous), c);
    forall n | n in previous.descriptor.messages && n in c.descriptor.messages
      ensures Retains(previous.descriptor.messages[n], c.descriptor.messages[n])
    {
      StepRetains(p, previous, c.descriptor, n);
    }
    if !IsBreaking(id, p, Some(previous)) {
      UnbrokenIsExtension(id, p, previous, c);
    }
  }

  /** No version from `low` on lies below v. */
  ghost predicate LeastFrom(v: Version, low: Version) {
    !v.Less(low) && forall w: Version | !w.Less(low) :: !w.Less(v)
  }

  lemma NoLower(v: Version)
    ensures LeastFrom(v, v)
  {
  }

  /**
   A first contract is 1.0.0. A changed schema has the least version of the next
   major if the step is incompatible, and of the next minor if it is not.
   */
  lemma VersionExactly(id: Identity, endpoints: seq<Endpoint>, previous: Option<Contract>) returns (p: Progress)
    requires UniqueIds(endpoints) && Prepare(id, endpoints, previous).Some?
    requires previous.Some? ==> Sound(id, previous.value)
    ensures Build(OverGrpc(endpoints)) == Ok(p)
    ensures var c := Prepare(id, endpoints, previous).value;
      match previous
      case None => c.version == Version(1, 0, 0)
      case Some(before) =>
        c.descriptor != before.descriptor ==>
          var v := before.version;
          if Compatible(id, p, before, c.descriptor)
          then c.version.major == v.major && c.version.minor > v.minor && LeastFrom(c.version, Version(v.major, v.minor + 1, 0))
          else c.version.major > v.major && LeastFrom(c.version, Version(v.major + 1, 0, 0))
  {
    hide Coherent, WellFormed, Build, ProgressOk, Tidy, CompiledFrom, IsBreaking, NumberedAfter, Prepare, Compatible, LeastFrom;
    p := PreparedFacts(id, endpoints, previous);
    var c := Prepare(id, endpoints, previous).value;
    NoLower(c.version);
    if previous.Some? { BreakingExactly(id, p, previous.value, c.descriptor); }
  }

  lemma FirstIsSound(id: Identity, endpoints: seq<Endpoint>)
    requires UniqueIds(endpoints) && Prepare(id, endpoints, None).Some?
    ensures Sound(id, Prepare(id, endpoints, None).value)
  {
    hide Coherent, WellFormed, Build, ProgressOk, Tidy, CompiledFrom, IsBreaking, NumberedAfter, Prepare, Follows;
    var p := PreparedFacts(id, endpoints, None);
    PreparedIsSound(id, p, None, Prepare(id, endpoints, None).value);
  }

  lemma {:induction false} VersionsIncrease(id: Identity, h: Ledger, i: nat, j: nat)
    requires Lineage(id, h) && i < j < |h|
    ensures h[i].version.Less(h[j].version)
    decreases j
  {
    hide Sound, Retains, DescriptorExtends;
    assert Succeeds(h[j - 1], h[j]);
    if i < j - 1 {
      VersionsIncrease(id, h, i, j - 1);
    }
  }

  /** A refused registration names a contract older than the latest one. */
  lemma RefusedExactly(id: Identity, h: Ledger, endpoints: seq<Endpoint>)
    requires Lineage(id, h) && UniqueIds(endpoints) && Prepare(id, endpoints, Latest(h)).Some?
    ensures var c := Prepare(id, endpoints, Latest(h)).value;
      Register(h, c).None? <==> exists i | 0 <= i < |h| - 1 :: h[i].descriptor == c.descriptor
  {
    hide Sound, Prepare, Retains, DescriptorExtends;
    var c := Prepare(id, endpoints, Latest(h)).value;
    if h != [] {
      var last := h[|h| - 1];
      assert Sound(id, last);
      PreparedSucceeds(id, endpoints, last);
      forall i | 0 <= i < |h| - 1 ensures h[i].version.Less(last.version) {
        VersionsIncrease(id, h, i, |h| - 1);
      }
      if i :| 0 <= i < |h| - 1 && h[i].descriptor == c.descriptor {
        assert h[i] in h && c.descriptor != last.descriptor;
      }
    }
  }

  /** Rows in order of registration have growing versions, and no schema twice. */
  ghost predicate Ordered(h: Ledger) {
    forall i, j | 0 <= i < j < |h| :: h[i].version.Less(h[j].version) && h[i].descriptor != h[j].descriptor
  }

  /** Registration keeps that, whatever contract it is given; a schema that is there never gets a second version. */
  lemma RegisterKeepsOrder(h: Ledger, c: Contract)
    requires Ordered(h) && Register(h, c).Some?
    ensures Ordered(Register(h, c).value) && c in Register(h, c).value && h <= Register(h, c).value
    ensures forall k | k in Register(h, c).value && k.descriptor == c.descriptor :: k == c
  {
    var r := Register(h, c).value;
    if k :| k in h && k.descriptor == c.descriptor {
      assert k == c;
    } else {
      assert forall i | 0 <= i < |h| :: h[i] in h && r[i] == h[i];
      if h != [] {
        var last := h[|h| - 1];
        forall i | 0 <= i < |h| ensures h[i].version.Less(c.version) {
          assert i < |h| - 1 ==> h[i].version.Less(last.version);
        }
      }
    }
  }

  /** The contract that a publication registers, if it is accepted. */
  ghost function Accepted(id: Identity, h: Ledger, endpoints: seq<Endpoint>): Option<Contract> {
    match Prepare(id, endpoints, Latest(h))
    case None => None
    case Some(c) => if Register(h, c).Some? then Some(c) else None
  }

  /** An accepted contract is the latest one afterwards: added if the schema changed, there already if not. */
  lemma AcceptedIsLatest(id: Identity, h: Ledger, endpoints: seq<Endpoint>)
    requires Lineage(id, h) && UniqueIds(endpoints)
    ensures var r := Publish(id, h, endpoints);
      match Accepted(id, h, endpoints)
      case None => r == h
      case Some(c) =>
        && Latest(r) == Some(c)
        && (if Latest(h).Some? && Latest(h).value.descriptor == c.descriptor then r == h else r == h + [c])
  {
    hide Sound, Prepare, Succeeds;
    if Prepare(id, endpoints, Latest(h)).Some? {
      RefusedExactly(id, h, endpoints);
      var c := Prepare(id, endpoints, Latest(h)).value;
      if h != [] {
        PreparedSucceeds(id, endpoints, h[|h| - 1]);
        assert h[|h| - 1] in h;
        if k :| k in h && k.descriptor == c.descriptor {
          var i :| 0 <= i < |h| && h[i] == k;
        }
      }
    }
  }

  lemma PublishKeepsLineage(id: Identity, h: Ledger, endpoints: seq<Endpoint>)
    requires Lineage(id, h) && UniqueIds(endpoints)
    ensures Lineage(id, Publish(id, h, endpoints))
  {
    hide Sound, Prepare, Succeeds;
    if Prepare(id, endpoints, Latest(h)).Some? {
      var c := Prepare(id, endpoints, Latest(h)).value;
      var r := Publish(id, h, endpoints);
      if r != h {
        if h == [] {
          FirstIsSound(id, endpoints);
        } else {
          PreparedSucceeds(id, endpoints, h[|h| - 1]);
          assert h[|h| - 1] in h;
        }
      }
    }
  }

  /** Every run leaves a lineage. */
  lemma {:induction false} RunIsLineage(id: Identity, requests: seq<seq<Endpoint>>)
    requires ValidRequests(requests)
    ensures Lineage(id, Run(id, requests))
  {
    if requests != [] {
      RunIsLineage(id, requests[..|requests| - 1]);
      PublishKeepsLineage(id, Run(id, requests[..|requests| - 1]), requests[|requests| - 1]);
    }
  }

  /** Publications only ever add to the table. */
  lemma {:induction false} RunGrows(id: Identity, requests: seq<seq<Endpoint>>, k: nat)
    requires ValidRequests(requests) && k <= |requests|
    ensures Run(id, requests[..k]) <= Run(id, requests)
    decreases |requests|
  {
    if k == |requests| {
      assert requests[..k] == requests;
    } else {
      var before := requests[..|requests| - 1];
      RunGrows(id, before, k);
      assert before[..k] == requests[..k];
      RunIsLineage(id, before);
      AcceptedIsLatest(id, Run(id, before), requests[|requests| - 1]);
    }
  }

  /** The k-th publication of the run is accepted with this contract. */
  ghost predicate AcceptedAt(id: Identity, requests: seq<seq<Endpoint>>, k: nat, c: Contract)
    requires k < |requests|
  {
    Accepted(id, Run(id, requests[..k]), requests[k]) == Some(c)
  }

  lemma AcceptedBefore(id: Identity, requests: seq<seq<Endpoint>>, k: nat, c: Contract)
    requires k < |requests| - 1
    ensures AcceptedAt(id, requests[..|requests| - 1], k, c) <==> AcceptedAt(id, requests, k, c)
  {
    hide Accepted, Run;
    assert requests[..|requests| - 1][..k] == requests[..k];
  }

  /** The table after a run holds exactly the contracts that its publications were accepted with. */
  lemma {:induction false} RunHoldsAccepted(id: Identity, requests: seq<seq<Endpoint>>, c: Contract)
    requires ValidRequests(requests)
    ensures c in Run(id, requests) <==> exists k | 0 <= k < |requests| :: AcceptedAt(id, requests, k, c)
    decreases |requests|
  {
    hide Run, AcceptedAt;
    if requests == [] {
      NothingPublished(id);
    } else {
      var n := |requests| - 1;
      RunHoldsAccepted(id, requests[..n], c);
      LastAdds(id, requests, c);
      forall k | 0 <= k < n ensures AcceptedAt(id, requests[..n], k, c) <==> AcceptedAt(id, requests, k, c) {
        AcceptedBefore(id, requests, k, c);
      }
    }
  }

  lemma NothingPublished(id: Identity)
    ensures Run(id, []) == []
  {
  }

  lemma LastAdds(id: Identity, requests: seq<seq<Endpoint>>, c: Contract)
    requires requests != [] && ValidRequests(requests)
    ensures c in Run(id, requests) <==> c in Run(id, requests[..|requests| - 1]) || AcceptedAt(id, requests, |requests| - 1, c)
  {
    hide Accepted, Publish, Lineage;
    var n := |requests| - 1;
    var h := Run(id, requests[..n]);
    RunIsLineage(id, requests[..n]);
    AcceptedIsLatest(id, h, requests[n]);
    assert Run(id, requests) == Publish(id, h, requests[n]);
    LatestIsIn(Run(id, requests));
  }

  lemma LatestIsIn(h: Ledger)
    ensures Latest(h).Some? ==> Latest(h).value in h
  {
  }

  // ---------------------------------------------------------------- field numbers over a whole run

  lemma MajorsGrow(id: Identity, h: Ledger, i: nat, j: nat)
    requires Lineage(id, h) && i <= j < |h|
    ensures h[i].version.major <= h[j].version.major
  {
    hide Sound, Succeeds;
    if i < j { VersionsIncrease(id, h, i, j); }
  }

  /** Within one major version the later schema always extends the earlier one. */
  lemma {:induction false} SameMajorExtends(id: Identity, h: Ledger, i: nat, j: nat)
    requires Lineage(id, h) && i <= j < |h| && h[i].version.major == h[j].version.major
    ensures DescriptorExtends(h[i].descriptor, h[j].descriptor)
    decreases j
  {
    hide Sound, Retains, MessageExtends;
    if i == j {
      ExtendsItself(h[i].descriptor);
    } else {
      MajorsGrow(id, h, i, j - 1);
      MajorsGrow(id, h, j - 1, j);
      SameMajorExtends(id, h, i, j - 1);
      assert Succeeds(h[j - 1], h[j]);
      ExtendsTransitive(h[i].descriptor, h[j - 1].descriptor, h[j].descriptor);
    }
  }

  lemma ExtendsItself(d: Descriptor)
    ensures DescriptorExtends(d, d)
  {
  }

  /**
   Over any run, a field number of a fully qualified message (the package
   carries the major version) is bound to one name, type and label only.
   */
  lemma NumbersAreStable(id: Identity, requests: seq<seq<Endpoint>>, i: nat, j: nat, n: string, x: string, y: string)
    requires ValidRequests(requests)
    requires i <= j < |Run(id, requests)|
    requires var a, b := Run(id, requests)[i].descriptor, Run(id, requests)[j].descriptor;
      && a.package == b.package && n in a.messages && n in b.messages
      && x in a.messages[n].fields && y in b.messages[n].fields
      && a.messages[n].fields[x].number == b.messages[n].fields[y].number
    ensures x == y
    ensures Run(id, requests)[i].descriptor.messages[n].fields[x] == Run(id, requests)[j].descriptor.messages[n].fields[y]
  {
    hide Run, Coherent;
    var h := Run(id, requests);
    RunIsLineage(id, requests);
    SoundAt(id, h, i);
    SoundAt(id, h, j);
    SameMajorExtends(id, h, i, j);
    ExtendedNumberIsStable(h[i].descriptor, h[j].descriptor, n, x, y);
  }

  lemma SoundAt(id: Identity, h: Ledger, i: nat)
    requires Lineage(id, h) && i < |h|
    ensures Sound(id, h[i])
  {
    hide Sound, Succeeds;
  }

  lemma ExtendedNumberIsStable(a: Descriptor, b: Descriptor, n: string, x: string, y: string)
    requires DescriptorExtends(a, b) && WellFormed(b) && n in a.messages && n in b.messages
    requires x in a.messages[n].fields && y in b.messages[n].fields
    requires a.messages[n].fields[x].number == b.messages[n].fields[y].number
    ensures x == y && a.messages[n].fields[x] == b.messages[n].fields[y]
  {
    assert MessageExtends(a.messages[n], b.messages[n]) && WellNumbered(b.messages[n]);
    assert Keeps(a.messages[n], b.messages[n], x);
  }

  /** The message is there in every contract from i to j. */
  predicate Continuous(h: Ledger, i: nat, j: nat, n: string)
    requires i <= j < |h|
  {
    forall k | i <= k <= j :: n in h[k].descriptor.messages
  }

  /** While a message stays, across major versions too, it retains all it ever bound. */
  lemma {:induction false} ContinuousRetains(id: Identity, h: Ledger, i: nat, j: nat, n: string)
    requires Lineage(id, h) && i < j < |h| && Continuous(h, i, j, n)
    ensures Retains(h[i].descriptor.messages[n], h[j].descriptor.messages[n])
    decreases j
  {
    hide Sound, Retains, DescriptorExtends;
    assert Succeeds(h[j - 1], h[j]);
    if i < j - 1 {
      ContinuousRetains(id, h, i, j - 1, n);
      RetainsTransitive(h[i].descriptor.messages[n], h[j - 1].descriptor.messages[n], h[j].descriptor.messages[n]);
    }
  }

  /** A number once bound in a message that stays is bound to the same field or to none. */
  lemma NumbersAreNeverReused(id: Identity, requests: seq<seq<Endpoint>>, i: nat, j: nat, n: string, x: string, y: string)
    requires ValidRequests(requests)
    requires i < j < |Run(id, requests)| && Continuous(Run(id, requests), i, j, n)
    requires var a, b := Run(id, requests)[i].descriptor.messages[n], Run(id, requests)[j].descriptor.messages[n];
      x in a.fields && y in b.fields && a.fields[x].number == b.fields[y].number
    ensures x == y
    ensures Run(id, requests)[i].descriptor.messages[n].fields[x] == Run(id, requests)[j].descriptor.messages[n].fields[y]
  {
    hide Run, Coherent, Retains, WellNumbered;
    var h := Run(id, requests);
    RunIsLineage(id, requests);
    SoundAt(id, h, j);
    ContinuousRetains(id, h, i, j, n);
    assert WellNumbered(h[j].descriptor.messages[n]);
    RetainedNumberIsStable(h[i].descriptor.messages[n], h[j].descriptor.messages[n], x, y);
  }

  /** A field name removed from a message that stays never comes back. */
  lemma RemovedNamesStayAway(id: Identity, requests: seq<seq<Endpoint>>, i: nat, k: nat, j: nat, n: string, x: string)
    requires ValidRequests(requests)
    requires i < k < j < |Run(id, requests)| && Continuous(Run(id, requests), i, j, n)
    requires x in Run(id, requests)[i].descriptor.messages[n].fields
    requires x !in Run(id, requests)[k].descriptor.messages[n].fields
    ensures x !in Run(id, requests)[j].descriptor.messages[n].fields
  {
    hide Run, Coherent;
    var h := Run(id, requests);
    RunIsLineage(id, requests);
    SoundAt(id, h, j);
    ContinuousRetains(id, h, i, k, n);
    ContinuousRetains(id, h, k, j, n);
    assert WellNumbered(h[j].descriptor.messages[n]);
  }

  /** Versions strictly increase and no two contracts share a schema. */
  lemma VersionsOfRun(id: Identity, requests: seq<seq<Endpoint>>, i: nat, j: nat)
    requires ValidRequests(requests) && i < j < |Run(id, requests)|
    ensures Run(id, requests)[i].version.Less(Run(id, requests)[j].version)
    ensures Run(id, requests)[i].descriptor != Run(id, requests)[j].descriptor
  {
    RunIsLineage(id, requests);
    VersionsIncrease(id, Run(id, requests), i, j);
  }

  // ---------------------------------------------------------------- when registration refuses

  /** The same schema with its methods in another order. */
  predicate Reordered(a: Descriptor, b: Descriptor) {
    && a.package == b.package && a.service == b.service && a.messages == b.messages
    && SameMethods(a.methods, b.methods) && a.methods != b.methods
  }

  lemma MutualExtension(a: Descriptor, b: Descriptor)
    requires DescriptorExtends(a, b) && DescriptorExtends(b, a)
    ensures a.messages == b.messages && SameMethods(a.methods, b.methods)
    ensures a.package == b.package && a.service == b.service
  {
    forall n | n in a.messages ensures n in b.messages && a.messages[n] == b.messages[n] {
      assert MessageExtends(a.messages[n], b.messages[n]) && MessageExtends(b.messages[n], a.messages[n]);
      forall f | f in a.messages[n].fields ensures Keeps(a.messages[n], b.messages[n], f) {
      }
      forall f | f in b.messages[n].fields ensures Keeps(b.messages[n], a.messages[n], f) {
      }
      assert a.messages[n].fields == b.messages[n].fields;
    }
  }

  /** An older contract can only recur as a reordering of the latest one. */
  lemma RecurrenceIsReordering(id: Identity, h: Ledger, endpoints: seq<Endpoint>, i: nat)
    requires Lineage(id, h) && UniqueIds(endpoints) && Prepare(id, endpoints, Latest(h)).Some?
    requires i < |h| - 1 && h[i].descriptor == Prepare(id, endpoints, Latest(h)).value.descriptor
    ensures Reordered(h[|h| - 1].descriptor, h[i].descriptor)
  {
    hide Prepare, Coherent, Retains, DescriptorExtends, WellFormed;
    var c := Prepare(id, endpoints, Latest(h)).value;
    var last := h[|h| - 1];
    SoundAt(id, h, i);
    SoundAt(id, h, |h| - 1);
    PreparedSucceeds(id, endpoints, last);
    MajorsGrow(id, h, i, |h| - 1);
    assert c.version.major == h[i].version.major == last.version.major;
    SameMajorExtends(id, h, i, |h| - 1);
    MutualExtension(last.descriptor, c.descriptor);
  }

  /** The i-th contract is the latest schema with its methods in the given other order. */
  predicate HadOrder(h: Ledger, i: nat, methods: seq<string>)
    requires i < |h|
  {
    h[i].descriptor.methods == methods && Reordered(h[|h| - 1].descriptor, h[i].descriptor)
  }

  /**
   Registration refuses exactly when the new schema is the latest one with its
   methods reordered into an order that an older contract already has.
   */
  lemma RefusesExactlyOldOrders(id: Identity, h: Ledger, endpoints: seq<Endpoint>)
    requires Lineage(id, h) && UniqueIds(endpoints) && Prepare(id, endpoints, Latest(h)).Some?
    ensures var c := Prepare(id, endpoints, Latest(h)).value;
      Register(h, c).None? <==>
        && h != [] && Reordered(h[|h| - 1].descriptor, c.descriptor)
        && exists i | 0 <= i < |h| - 1 :: HadOrder(h, i, c.descriptor.methods)
  {
    hide Prepare, Succeeds, Sound, Register, SameMethods;
    var c := Prepare(id, endpoints, Latest(h)).value;
    RefusedExactly(id, h, endpoints);
    if i :| 0 <= i < |h| - 1 && h[i].descriptor == c.descriptor {
      RecurrenceIsReordering(id, h, endpoints, i);
      assert HadOrder(h, i, c.descriptor.methods);
    }
    if h != [] && Reordered(h[|h| - 1].descriptor, c.descriptor) {
      if i :| 0 <= i < |h| - 1 && HadOrder(h, i, c.descriptor.methods) {
        assert h[i].descriptor == c.descriptor;
      }
    }
  }

  /** Methods that both lists have stand in the same order. */
  predicate KeepsOrder(a: seq<string>, b: seq<string>) {
    forall i, j, k, l | 0 <= i < j < |a| && 0 <= k < |b| && 0 <= l < |b| && a[i] == b[k] && a[j] == b[l] :: k < l
  }

  lemma {:induction false} SameOrderIsEqual(a: seq<string>, b: seq<string>)
    requires Distinct(a) && Distinct(b) && SameMethods(a, b) && KeepsOrder(a, b)
    ensures a == b
  {
    if a == [] {
      assert forall i | 0 <= i < |b| :: b[i] in b;
    } else {
      assert a[0] in a;
      var k :| 0 <= k < |b| && b[k] == a[0];
      assert b[0] in b;
      var i :| 0 <= i < |a| && a[i] == b[0];
      assert i == 0 && k == 0;
      TailsMatch(a, b);
      SameOrderIsEqual(a[1..], b[1..]);
      assert a == [a[0]] + a[1..] && b == [b[0]] + b[1..];
    }
  }

  lemma TailsMatch(a: seq<string>, b: seq<string>)
    requires a != [] && b != [] && a[0] == b[0]
    requires Distinct(a) && Distinct(b) && SameMethods(a, b) && KeepsOrder(a, b)
    ensures Distinct(a[1..]) && Distinct(b[1..]) && SameMethods(a[1..], b[1..]) && KeepsOrder(a[1..], b[1..])
  {
    forall m | m in a[1..] ensures m in b[1..] {
      assert m in a;
      var k :| 0 <= k < |b| && b[k] == m;
      assert k > 0 && b[1..][k - 1] == m;
    }
    forall m | m in b[1..] ensures m in a[1..] {
      assert m in b;
      var k :| 0 <= k < |a| && a[k] == m;
      assert k > 0 && a[1..][k - 1] == m;
    }
    forall i, j, k, l | 0 <= i < j < |a| - 1 && 0 <= k < |b| - 1 && 0 <= l < |b| - 1 && a[1..][i] == b[1..][k] && a[1..][j] == b[1..][l]
      ensures k < l
    {
      assert a[i + 1] == b[k + 1] && a[j + 1] == b[l + 1];
    }
  }

  /** The methods that endpoints are published under, in order. */
  function MethodNames(endpoints: seq<Endpoint>): seq<string> {
    if endpoints == [] then []
    else (if Pascal(endpoints[0].id).Some? then [Pascal(endpoints[0].id).value] else []) + MethodNames(endpoints[1..])
  }

  lemma {:induction false} MethodsAreNames(endpoints: seq<Endpoint>, methods: seq<string>)
    requires MethodsFollow([], methods, endpoints)
    ensures methods == MethodNames(endpoints)
  {
    hide Pascal;
    var none: seq<string> := [];
    if endpoints != [] {
      assert Pascal(endpoints[0].id) == Some(methods[|none| + 0]);
      forall i | 0 <= i < |endpoints[1..]| ensures Pascal(endpoints[1..][i].id) == Some(methods[1..][|none| + i]) {
        assert Pascal(endpoints[i + 1].id) == Some(methods[|none| + (i + 1)]);
      }
      MethodsAreNames(endpoints[1..], methods[1..]);
      assert methods == [methods[0]] + methods[1..];
    }
  }

  lemma PreparedMethods(id: Identity, endpoints: seq<Endpoint>, previous: Option<Contract>)
    requires UniqueIds(endpoints) && PreviousOk(previous) && Prepare(id, endpoints, previous).Some?
    ensures Prepare(id, endpoints, previous).value.descriptor.methods == MethodNames(OverGrpc(endpoints))
  {
    hide Prepare, Build, ProgressOk, Tidy, IsBreaking, CompiledFrom, Coherent, WellFormed, NumberedAfter, MethodsFollow, PreviousOk;
    var p := PreparedFacts(id, endpoints, previous);
    OverGrpcKeeps(endpoints);
    BuildSound(OverGrpc(endpoints));
    MethodsAreNames(OverGrpc(endpoints), p.methods);
  }

  /** A publication whose endpoints keep the order of the methods they share with the latest contract is never refused. */
  lemma OrderKeptIsAccepted(id: Identity, h: Ledger, endpoints: seq<Endpoint>)
    requires Lineage(id, h) && UniqueIds(endpoints) && Prepare(id, endpoints, Latest(h)).Some?
    requires h != [] ==> KeepsOrder(h[|h| - 1].descriptor.methods, MethodNames(OverGrpc(endpoints)))
    ensures Register(h, Prepare(id, endpoints, Latest(h)).value).Some?
  {
    hide Prepare, Succeeds, Register, KeepsOrder, WellFormed, MessageCoherent, MethodCoherent, MethodNames;
    var c := Prepare(id, endpoints, Latest(h)).value;
    RefusesExactlyOldOrders(id, h, endpoints);
    if h != [] && Reordered(h[|h| - 1].descriptor, c.descriptor) {
      SoundAt(id, h, |h| - 1);
      PreparedMethods(id, endpoints, Latest(h));
      PreparedSucceeds(id, endpoints, h[|h| - 1]);
      SameOrderIsEqual(h[|h| - 1].descriptor.methods, c.descriptor.methods);
    }
  }
}
