/** Which operation moves a version of a runtime to another status and under which condition, and how versions are numbered. */
module RuntimeLifecycle {
  import opened Prelude
  import opened RuntimeLabels

  // ---------------------------------------------------------------- statuses

  predicate Unreferenced(db: Db, v: nat) {
    forall r | r in db.bindings :: db.bindings[r].version != v
  }

  /** Every revision on the version follows the label, so that an activation takes it away. */
  predicate OnlyFollowers(db: Db, v: nat) {
    forall r | r in db.bindings && db.bindings[r].version == v :: db.bindings[r].tracking == TrackActive
  }

  /** No label points at the version, no revision is on it, and no execution runs in its environment. */
  predicate Quiet(db: Db, v: nat, activeExecutions: nat)
    requires v in db.versions
  {
    && (forall l | l in db.labels :: db.labels[l].active != Some(v))
    && Unreferenced(db, v)
    && (db.versions[v].digest == None || activeExecutions == 0)
  }

  /** The version is ready, and every revision that follows its label states requirements that it meets. */
  predicate Takes(judge: Judge, db: Db, v: nat)
    requires v in db.versions
  {
    && db.versions[v].status == Ready
    && forall r | r in db.bindings && db.bindings[r].runtime == db.versions[v].runtime && db.bindings[r].tracking == TrackActive ::
      && db.bindings[r].requirements.Some?
      && judge(db.versions[v].python, db.versions[v].installed, db.bindings[r].requirements.value)
  }

  /** Another version of the label takes the place of its active version v. */
  predicate Replaces(judge: Judge, db: Db, op: Op, v: nat)
    requires v in db.versions
  {
    && op.Activate? && op.version in db.versions && op.version != v && Takes(judge, db, op.version)
    && db.versions[v].status == Active && db.versions[v].runtime == db.versions[op.version].runtime
  }

  function StatusAfter(judge: Judge, db: Db, op: Op, v: nat): Status
    requires v in db.versions && Sane(db, op)
  {
    Apply(judge, db, op).versions[v].status
  }

  lemma BecomesFailedExactly(judge: Judge, db: Db, op: Op, v: nat)
    requires Inv(db) && Sane(db, op) && v in db.versions && db.versions[v].status != Failed
    ensures StatusAfter(judge, db, op, v) == Failed <==> op == FailValidation(v)
  {
    hide Inv, Moved, TrackersMeet, References;
  }

  lemma BecomesRetiredExactly(judge: Judge, db: Db, op: Op, v: nat)
    requires Inv(db) && Sane(db, op) && v in db.versions && db.versions[v].status != Retired
    ensures StatusAfter(judge, db, op, v) == Retired <==>
      op.Retire? && op.version == v && op.finalize && db.versions[v].status == Retiring && Quiet(db, v, op.activeExecutions)
  {
    QuietExactly(db, v);
    NotActive(db, v);
    if op.Activate? && op.version != v { ReplacedStatus(judge, db, op, v); }
    if op == Activate(v) { ActivatedStatus(db, v); }
    hide Inv, Activated, TrackersMeet, References, Quiet, Replaces;
  }

  /** A label that points at a version is the version's own label. */
  lemma QuietExactly(db: Db, v: nat)
    requires Inv(db) && v in db.versions
    ensures forall n: nat :: Quiet(db, v, n) <==>
      db.labels[db.versions[v].runtime].active != Some(v) && References(db, v) == {} && (db.versions[v].digest.Some? ==> n == 0)
  {
    UnreferencedExactly(db, v);
    hide NamesUnique, NumbersUnique, BindingsOwned, ActiveExactly, References, Unreferenced;
  }

  lemma UnreferencedExactly(db: Db, v: nat)
    ensures Unreferenced(db, v) <==> References(db, v) == {}
  {
    assert forall r | r in db.bindings && db.bindings[r].version == v :: db.bindings[r].service in References(db, v);
  }

  lemma TakesExactly(judge: Judge, db: Db, v: nat)
    requires v in db.versions
    ensures Takes(judge, db, v) <==> db.versions[v].status == Ready && TrackersMeet(judge, db, v)
  {
  }

  lemma BecomesActiveExactly(judge: Judge, db: Db, op: Op, v: nat)
    requires Inv(db) && Sane(db, op) && v in db.versions && db.versions[v].status != Active
    ensures StatusAfter(judge, db, op, v) == Active <==> op == Activate(v) && Takes(judge, db, v)
  {
    NotActive(db, v);
    TakesExactly(judge, db, v);
    if op.Activate? && op.version != v { ReplacedStatus(judge, db, op, v); }
    if op == Activate(v) { ActivatedStatus(db, v); }
    hide Inv, Activated, TrackersMeet, References, Takes, Replaces;
  }

  /** The version that another one replaces keeps its pinned revisions and no other. */
  lemma LeftBehind(db: Db, v: nat, w: nat)
    requires Inv(db) && v in db.versions && w in db.versions && v != w && db.versions[v].runtime == db.versions[w].runtime
    ensures References(Activated(db, w), v) == {} <==> OnlyFollowers(db, v)
  {
    hide NamesUnique, NumbersUnique, ActiveExactly, References;
    UnreferencedExactly(Activated(db, w), v);
    var moved := Moved(db, w);
    assert Activated(db, w).bindings == moved;
    assert forall r | r in db.bindings :: db.bindings[r].version == v ==> db.bindings[r].runtime == db.versions[v].runtime;
    assert forall r | r in db.bindings ::
      moved[r].version == v <==> db.bindings[r].version == v && db.bindings[r].tracking != TrackActive;
  }

  /** The operation puts another version of the label in the place of v. */
  lemma ReplacesExactly(judge: Judge, db: Db, op: Op, v: nat)
    requires Inv(db) && v in db.versions && op.Activate? && op.version != v
    ensures Replaces(judge, db, op, v) <==>
      CanActivate(judge, db, op.version) && db.labels[db.versions[op.version].runtime].active == Some(v)
  {
    if op.version in db.versions {
      NotActive(db, v);
      NotActive(db, op.version);
      TakesExactly(judge, db, op.version);
      OwnedOf(db);
      hide Inv, TrackersMeet, Takes;
    }
  }

  lemma ReplacedStatus(judge: Judge, db: Db, op: Op, v: nat)
    requires Inv(db) && Sane(db, op) && v in db.versions && op.Activate? && op.version != v
    ensures StatusAfter(judge, db, op, v) ==
      if !Replaces(judge, db, op, v) then db.versions[v].status else if OnlyFollowers(db, v) then Retiring else Ready
  {
    ReplacesExactly(judge, db, op, v);
    if Replaces(judge, db, op, v) {
      LeftBehind(db, v, op.version);
      PreviousRetiresExactly(judge, db, op.version, v);
    }
    hide Inv, Moved, TrackersMeet, References, OnlyFollowers, Replaces;
  }

  lemma BecomesReadyExactly(judge: Judge, db: Db, op: Op, v: nat)
    requires Inv(db) && Sane(db, op) && v in db.versions && db.versions[v].status != Ready
    ensures StatusAfter(judge, db, op, v) == Ready <==>
      || (op.CompleteValidation? && op.version == v && db.versions[v].status == Validating)
      || (Replaces(judge, db, op, v) && !OnlyFollowers(db, v))
  {
    if op.Activate? && op.version != v { ReplacedStatus(judge, db, op, v); }
    hide Inv, Activated, TrackersMeet, References, OnlyFollowers;
    if op == Activate(v) { ActivatedStatus(db, v); }
  }

  lemma ActivatedStatus(db: Db, v: nat)
    requires Inv(db) && v in db.versions
    ensures Activated(db, v).versions[v].status == Active
  {
    hide Moved, References;
  }

  /** A version retires on request when it is quiet, or when the label moves on and takes all its revisions along. */
  lemma BecomesRetiringExactly(judge: Judge, db: Db, op: Op, v: nat)
    requires Inv(db) && Sane(db, op) && v in db.versions && db.versions[v].status != Retiring
    ensures StatusAfter(judge, db, op, v) == Retiring <==>
      || (op.Retire? && op.version == v && !op.finalize && db.versions[v].status != Retired && Quiet(db, v, op.activeExecutions))
      || (Replaces(judge, db, op, v) && OnlyFollowers(db, v))
  {
    QuietExactly(db, v);
    NotActive(db, v);
    if op.Activate? && op.version != v { ReplacedStatus(judge, db, op, v); }
    hide Inv, Activated, TrackersMeet, References, OnlyFollowers, Quiet;
    if op == Activate(v) { ActivatedStatus(db, v); }
  }

  /** No step gives a version back to validation. */
  lemma NeverValidatesAgain(judge: Judge, db: Db, op: Op, v: nat)
    requires Inv(db) && Sane(db, op) && v in db.versions && db.versions[v].status != Validating
    ensures StatusAfter(judge, db, op, v) != Validating
  {
    hide Inv, Moved, TrackersMeet, References;
  }

  /** Apart from its status a version changes once, when its validation completes. */
  lemma ContentsExactly(judge: Judge, db: Db, op: Op, v: nat)
    requires Inv(db) && Sane(db, op) && v in db.versions
    ensures var w := db.versions[v];
      Apply(judge, db, op).versions[v] ==
        if op.CompleteValidation? && op.version == v && w.status == Validating
        then w.(status := Ready, installed := op.installed, digest := Some(op.digest))
        else w.(status := StatusAfter(judge, db, op, v))
  {
    hide Inv, Moved, TrackersMeet, References;
  }

  /** A label keeps its name, and only the activation of one of its versions moves it. */
  lemma LabelExactly(judge: Judge, db: Db, op: Op, l: nat)
    requires Inv(db) && Sane(db, op) && l in db.labels
    ensures l in Apply(judge, db, op).labels
    ensures Apply(judge, db, op).labels[l] ==
      if op.Activate? && CanActivate(judge, db, op.version) && db.versions[op.version].runtime == l
      then db.labels[l].(active := Some(op.version))
      else db.labels[l]
  {
    hide Inv, Moved, TrackersMeet, References;
  }

  // ---------------------------------------------------------------- numbers

  /** The versions of every label are numbered 1, 2, 3 and so on without a gap. */
  predicate Consecutive(db: Db) {
    forall l | l in db.labels :: NoGap(Numbers(db, l))
  }

  predicate NoGap(numbers: set<nat>) {
    1 in numbers && forall n | n in numbers :: n == 1 || (1 < n && n - 1 in numbers)
  }

  lemma OneIsNoGap()
    ensures NoGap({1})
  {
  }

  lemma NextHasNoGap(numbers: set<nat>)
    requires NoGap(numbers)
    ensures NoGap(numbers + {Latest(numbers) + 1})
  {
  }

  lemma NumbersOf(db: Db, l: nat, v: nat, number: nat, python: string, m: nat)
    requires v !in db.versions
    ensures Numbers(NewVersion(db, l, v, number, python), m) == if m == l then Numbers(db, l) + {number} else Numbers(db, m)
  {
    var next := NewVersion(db, l, v, number, python);
    assert forall w | w in db.versions :: next.versions[w] == db.versions[w];
    assert forall w | w in next.versions :: w == v || w in db.versions;
    assert m == l ==> next.versions[v].number in Numbers(next, l);
    assert forall n | n in Numbers(db, m) :: n in Numbers(next, m);
  }

  lemma SameNumbers(db: Db, next: Db, l: nat)
    requires SameShape(db, next)
    ensures Numbers(next, l) == Numbers(db, l)
  {
    assert forall v | v in db.versions && db.versions[v].runtime == l :: next.versions[v].number in Numbers(next, l);
    assert forall v | v in next.versions && next.versions[v].runtime == l :: db.versions[v].number in Numbers(db, l);
  }

  lemma CreatedConsecutive(db: Db, l: nat, v: nat, number: nat, python: string)
    requires Consecutive(db) && l in db.labels && v !in db.versions
    requires NoGap(Numbers(db, l) + {number})
    ensures Consecutive(NewVersion(db, l, v, number, python))
  {
    hide Numbers, NoGap;
    forall m | m in db.labels ensures NoGap(Numbers(NewVersion(db, l, v, number, python), m)) {
      NumbersOf(db, l, v, number, python, m);
    }
  }

  lemma LabelConsecutive(db: Db, id: nat, name: string, first: nat, python: string)
    requires Inv(db) && Consecutive(db) && id !in db.labels && first !in db.versions
    ensures Consecutive(NewVersion(db.(labels := db.labels[id := Runtime(name, None)]), id, first, 1, python))
  {
    var labelled := db.(labels := db.labels[id := Runtime(name, None)]);
    OwnedOf(db);
    NoVersionsYet(db, id);
    OneIsNoGap();
    assert {} + {1} == {1 as nat};
    hide Inv, NoGap;
    forall m | m in labelled.labels ensures NoGap(Numbers(NewVersion(labelled, id, first, 1, python), m)) {
      NumbersOf(labelled, id, first, 1, python, m);
      assert Numbers(labelled, m) == Numbers(db, m);
    }
  }

  lemma SameShapeConsecutive(db: Db, next: Db)
    requires Consecutive(db) && SameShape(db, next)
    ensures Consecutive(next)
  {
    forall l | l in next.labels ensures NoGap(Numbers(next, l)) { SameNumbers(db, next, l); }
  }

  /** Every operation leaves the numbers of every label without a gap. */
  lemma StepConsecutive(judge: Judge, db: Db, op: Op)
    requires Inv(db) && Consecutive(db) && Sane(db, op)
    ensures Consecutive(Apply(judge, db, op))
  {
    hide Inv, Consecutive, Activated, NewVersion, References, SameShape, TrackersMeet;
    if Allowed(judge, db, op) {
      match op
      case CreateLabel(id, name, first, python) => LabelConsecutive(db, id, name, first, python);
      case CreateVersion(l, id, python) => NextConsecutive(db, l, id, python);
      case Activate(v) =>
        OwnedOf(db);
        ActivatedShape(db, v);
        SameShapeConsecutive(db, Activated(db, v));
      case _ =>
        OthersKeepShape(judge, db, op);
        SameShapeConsecutive(db, Apply(judge, db, op));
    }
  }

  lemma NextConsecutive(db: Db, l: nat, id: nat, python: string)
    requires Consecutive(db) && l in db.labels && id !in db.versions
    ensures Consecutive(NewVersion(db, l, id, Latest(Numbers(db, l)) + 1, python))
  {
    NextHasNoGap(Numbers(db, l));
    CreatedConsecutive(db, l, id, Latest(Numbers(db, l)) + 1, python);
  }

  lemma OthersKeepShape(judge: Judge, db: Db, op: Op)
    requires !op.CreateLabel? && !op.CreateVersion? && !op.Activate?
    ensures SameShape(db, Apply(judge, db, op))
  {
    hide References, TrackersMeet;
  }

  lemma {:induction false} RunConsecutive(judge: Judge, db: Db, ops: seq<Op>)
    requires Inv(db) && Consecutive(db) && SaneRun(judge, db, ops)
    ensures Inv(Run(judge, db, ops)) && Consecutive(Run(judge, db, ops))
    decreases |ops|
  {
    hide Inv, Consecutive, Apply, Sane;
    if ops != [] {
      assert Sane(db, ops[0]) && SaneRun(judge, Apply(judge, db, ops[0]), ops[1..]) by { SaneFirst(judge, db, ops); }
      ApplyKeeps(judge, db, ops[0]);
      StepConsecutive(judge, db, ops[0]);
      RunConsecutive(judge, Apply(judge, db, ops[0]), ops[1..]);
    }
  }

  /** After any run the n versions of a label are exactly the numbers from 1 to n. */
  lemma NumbersAreConsecutive(judge: Judge, ops: seq<Op>, l: nat)
    requires SaneRun(judge, EMPTY, ops) && l in Run(judge, EMPTY, ops).labels
    ensures var db := Run(judge, EMPTY, ops);
      forall n: nat :: n in Numbers(db, l) <==> 1 <= n <= |VersionsOf(db, l)|
  {
    assert Inv(EMPTY) && Consecutive(EMPTY);
    RunConsecutive(judge, EMPTY, ops);
    var db := Run(judge, EMPTY, ops);
    assert NoGap(Numbers(db, l));
    NoGapIsRange(Numbers(db, l));
    OneNumberEach(db, l);
  }

  function VersionsOf(db: Db, l: nat): set<nat> {
    set v | v in db.versions && db.versions[v].runtime == l
  }

  lemma OneNumberEach(db: Db, l: nat)
    requires Inv(db)
    ensures |Numbers(db, l)| == |VersionsOf(db, l)|
  {
    var f := map v | v in VersionsOf(db, l) :: db.versions[v].number;
    assert forall v | v in db.versions && db.versions[v].runtime == l :: v in VersionsOf(db, l) && f[v] in Numbers(db, l);
    SameSize(VersionsOf(db, l), f, Numbers(db, l));
  }

  lemma {:induction false} SameSize(s: set<nat>, f: map<nat, nat>, image: set<nat>)
    requires f.Keys == s && forall v, w | v in s && w in s && f[v] == f[w] :: v == w
    requires (forall v | v in s :: f[v] in image) && forall n | n in image :: exists v :: v in s && f[v] == n
    ensures |image| == |s|
    decreases |s|
  {
    if s == {} {
      assert image == {};
    } else {
      var v :| v in s;
      var g := f - {v};
      forall n | n in image - {f[v]} ensures exists w :: w in s - {v} && g[w] == n {
        var w :| w in s && f[w] == n;
        assert w in s - {v} && g[w] == n;
      }
      SameSize(s - {v}, g, image - {f[v]});
    }
  }

  lemma {:induction false} NoGapIsRange(numbers: set<nat>)
    requires NoGap(numbers)
    ensures forall n: nat :: n in numbers <==> 1 <= n <= |numbers|
    decreases |numbers|
  {
    var top := Latest(numbers);
    if top == 1 {
      assert numbers == {1};
    } else {
      var rest := numbers - {top};
      NoGapIsRange(rest);
      assert |numbers| == |rest| + 1;
      assert top - 1 in rest && top !in rest;
      assert top == |numbers|;
      assert forall n: nat :: n in numbers <==> n == top || n in rest;
    }
  }
}
