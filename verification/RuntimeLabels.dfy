/** Versions of a runtime environment, the one each label has active, and the revisions bound to them. */
module RuntimeLabels {
  import opened Prelude

  datatype Status = Validating | Ready | Active | Failed | Retiring | Retired

  datatype Version = Version(runtime: nat, number: nat, python: string, installed: map<string, string>, digest: Option<string>, status: Status)

  datatype Runtime = Runtime(name: string, active: Option<nat>)

  datatype Requirements = Requirements(python: string, dependencies: seq<string>)

  datatype Tracking = Pinned | TrackActive

  datatype ProfileRef = ProfileRef(name: string, number: nat)

  /** How one revision is tied to a label; metadata of old publications may lack the requirements. */
  datatype Binding = Binding(service: nat, runtime: nat, version: nat, tracking: Tracking, requirements: Option<Requirements>, resolved: ProfileRef)

  datatype Db = Db(labels: map<nat, Runtime>, versions: map<nat, Version>, bindings: map<nat, Binding>)

  datatype Error = NotFound | InvalidTransition

  /** Whether an interpreter and its installed packages meet a revision's requirements. */
  type Judge = (string, map<string, string>, Requirements) -> bool

  datatype Op =
    | CreateLabel(id: nat, name: string, first: nat, python: string)
    | CreateVersion(runtime: nat, id: nat, python: string)
    | CompleteValidation(version: nat, installed: map<string, string>, digest: string)
    | FailValidation(version: nat)
    | Activate(version: nat)
    | Retire(version: nat, finalize: bool, activeExecutions: nat)
    | Bind(revision: nat, binding: Binding)
    | Unbind(service: nat)

  // ---------------------------------------------------------------- the transitions

  function References(db: Db, v: nat): set<nat> {
    set r | r in db.bindings && db.bindings[r].version == v :: db.bindings[r].service
  }

  function Numbers(db: Db, l: nat): set<nat> {
    set v | v in db.versions && db.versions[v].runtime == l :: db.versions[v].number
  }

  lemma HasLargest(s: set<nat>)
    requires s != {}
    ensures exists m :: m in s && forall k | k in s :: k <= m
  {
    var x :| x in s;
    if s == {x} {
    } else {
      HasLargest(s - {x});
      var y :| y in s - {x} && forall k | k in s - {x} :: k <= y;
      assert forall k | k in s :: k == x || k in s - {x};
      assert if x <= y then forall k | k in s :: k <= y else forall k | k in s :: k <= x;
    }
  }

  /** The largest number so far, or zero. */
  function Latest(s: set<nat>): (n: nat)
    ensures forall m | m in s :: m <= n
    ensures s == {} ==> n == 0
    ensures s != {} ==> n in s
  {
    if s == {} then 0
    else
      HasLargest(s);
      var m :| m in s && forall k | k in s :: k <= m;
      m
  }

  function Ref(db: Db, v: nat): ProfileRef
    requires v in db.versions && db.versions[v].runtime in db.labels
  {
    ProfileRef(db.labels[db.versions[v].runtime].name, db.versions[v].number)
  }

  /** The revisions that follow a label's active version. */
  predicate Tracks(db: Db, r: nat, l: nat) {
    r in db.bindings && db.bindings[r].runtime == l && db.bindings[r].tracking == TrackActive
  }

  predicate Meets(judge: Judge, v: Version, b: Binding) {
    b.requirements.Some? && judge(v.python, v.installed, b.requirements.value)
  }

  predicate TrackersMeet(judge: Judge, db: Db, v: nat)
    requires v in db.versions
  {
    forall r | r in db.bindings && Tracks(db, r, db.versions[v].runtime) :: Meets(judge, db.versions[v], db.bindings[r])
  }

  predicate Usable(s: Status) { s == Ready || s == Active }

  predicate Dead(s: Status) { s == Failed || s == Retiring || s == Retired }

  predicate CanActivate(judge: Judge, db: Db, v: nat) {
    && v in db.versions && Usable(db.versions[v].status) && db.versions[v].runtime in db.labels
    && TrackersMeet(judge, db, v)
  }

  predicate CanRetire(db: Db, v: nat, finalize: bool, activeExecutions: nat) {
    && v in db.versions && db.versions[v].runtime in db.labels
    && db.labels[db.versions[v].runtime].active != Some(v)
    && References(db, v) == {}
    && (db.versions[v].digest.Some? ==> activeExecutions == 0)
    && (if finalize then db.versions[v].status == Retiring else db.versions[v].status != Retired)
  }

  function WithStatus(db: Db, v: nat, status: Status): Db
    requires v in db.versions
  {
    db.(versions := db.versions[v := db.versions[v].(status := status)])
  }

  /** Every tracking revision of the label moves to the version. */
  function Moved(db: Db, v: nat): map<nat, Binding>
    requires v in db.versions && db.versions[v].runtime in db.labels
  {
    map r | r in db.bindings ::
      if Tracks(db, r, db.versions[v].runtime) then db.bindings[r].(version := v, resolved := Ref(db, v)) else db.bindings[r]
  }

  /** The label points at the version; the version before it retires when nothing refers to it any more. */
  function Activated(db: Db, v: nat): Db
    requires v in db.versions && db.versions[v].runtime in db.labels
  {
    var l := db.versions[v].runtime;
    var previous := db.labels[l].active;
    var active := WithStatus(db.(labels := db.labels[l := db.labels[l].(active := Some(v))], bindings := Moved(db, v)), v, Active);
    if previous.Some? && previous.value in db.versions && previous.value != v
    then WithStatus(active, previous.value, if References(active, previous.value) == {} then Retiring else Ready)
    else active
  }

  function NewVersion(db: Db, l: nat, v: nat, number: nat, python: string): Db {
    db.(versions := db.versions[v := Version(l, number, python, map[], None, Validating)])
  }

  predicate Allowed(judge: Judge, db: Db, op: Op) {
    match op
    case CreateLabel(_, name, _, _) => forall l | l in db.labels :: db.labels[l].name != name
    case CreateVersion(l, _, _) => l in db.labels
    case CompleteValidation(v, _, _) => v in db.versions && db.versions[v].status == Validating
    case FailValidation(v) => v in db.versions
    case Activate(v) => CanActivate(judge, db, v)
    case Retire(v, finalize, activeExecutions) => CanRetire(db, v, finalize, activeExecutions)
    case Bind(_, _) => true
    case Unbind(_) => true
  }

  /** What the callers and the store guarantee: new ids are fresh, a binding refers to a version of its label, and a failed validation is not of an active version. */
  predicate Sane(db: Db, op: Op) {
    match op
    case CreateLabel(id, _, first, _) => id !in db.labels && first !in db.versions
    case CreateVersion(_, id, _) => id !in db.versions
    case FailValidation(v) => v in db.versions ==> db.versions[v].status != Active
    case Bind(r, b) => r !in db.bindings && b.version in db.versions && db.versions[b.version].runtime == b.runtime
    case _ => true
  }

  function Apply(judge: Judge, db: Db, op: Op): Db {
    if !Allowed(judge, db, op) then db
    else
      match op
      case CreateLabel(id, name, first, python) =>
        NewVersion(db.(labels := db.labels[id := Runtime(name, None)]), id, first, 1, python)
      case CreateVersion(l, id, python) => NewVersion(db, l, id, Latest(Numbers(db, l)) + 1, python)
      case CompleteValidation(v, installed, digest) =>
        db.(versions := db.versions[v := db.versions[v].(installed := installed, digest := Some(digest), status := Ready)])
      case FailValidation(v) => WithStatus(db, v, Failed)
      case Activate(v) => Activated(db, v)
      case Retire(v, finalize, _) => WithStatus(db, v, if finalize then Retired else Retiring)
      case Bind(r, b) => db.(bindings := db.bindings[r := b])
      case Unbind(service) => db.(bindings := map r | r in db.bindings && db.bindings[r].service != service :: db.bindings[r])
  }

  // ---------------------------------------------------------------- invariants

  /** A version is ACTIVE exactly when it is the one its label points at. */
  predicate ActiveExactly(db: Db) {
    forall v | v in db.versions && db.versions[v].runtime in db.labels ::
      db.versions[v].status == Active <==> db.labels[db.versions[v].runtime].active == Some(v)
  }

  predicate Owned(db: Db) {
    && (forall v | v in db.versions :: db.versions[v].runtime in db.labels)
    && (forall l | l in db.labels && db.labels[l].active.Some? ::
          db.labels[l].active.value in db.versions && db.versions[db.labels[l].active.value].runtime == l)
  }

  predicate BindingsOwned(db: Db) {
    forall r | r in db.bindings ::
      db.bindings[r].version in db.versions && db.versions[db.bindings[r].version].runtime == db.bindings[r].runtime
  }

  predicate NamesUnique(db: Db) {
    forall l, m | l in db.labels && m in db.labels && db.labels[l].name == db.labels[m].name :: l == m
  }

  predicate NumbersUnique(db: Db) {
    forall v, w | v in db.versions && w in db.versions
      && db.versions[v].runtime == db.versions[w].runtime && db.versions[v].number == db.versions[w].number :: v == w
  }

  predicate Inv(db: Db) {
    Owned(db) && ActiveExactly(db) && BindingsOwned(db) && NamesUnique(db) && NumbersUnique(db)
  }

  /** Nothing but statuses and contents of versions changed. */
  predicate SameShape(db: Db, next: Db) {
    && next.labels.Keys == db.labels.Keys && next.versions.Keys == db.versions.Keys
    && (forall l | l in db.labels :: next.labels[l].name == db.labels[l].name)
    && (forall v | v in db.versions :: next.versions[v].runtime == db.versions[v].runtime && next.versions[v].number == db.versions[v].number)
  }

  lemma ShapeKeeps(db: Db, next: Db)
    requires NamesUnique(db) && NumbersUnique(db) && SameShape(db, next)
    ensures NamesUnique(next) && NumbersUnique(next)
  {
  }

  lemma StatusKeeps(db: Db, v: nat, next: Db, status: Status)
    requires Inv(db) && v in db.versions && status != Active && db.versions[v].status != Active
    requires next.labels == db.labels && next.bindings == db.bindings && next.versions.Keys == db.versions.Keys
    requires forall w | w in db.versions && w != v :: next.versions[w] == db.versions[w]
    requires next.versions[v].status == status && next.versions[v].runtime == db.versions[v].runtime
    requires next.versions[v].number == db.versions[v].number
    ensures Inv(next)
  {
    ShapeKeeps(db, next);
    hide NamesUnique, NumbersUnique;
  }

  lemma NewVersionKeeps(db: Db, l: nat, v: nat, number: nat, python: string)
    requires Inv(db) && l in db.labels && v !in db.versions && number !in Numbers(db, l)
    ensures Inv(NewVersion(db, l, v, number, python))
  {
    NewNumber(db, l, v, number, python);
    NewVersionOwned(db, l, v, number, python);
    hide NumbersUnique, Numbers, Owned, ActiveExactly, BindingsOwned;
  }

  lemma NewVersionOwned(db: Db, l: nat, v: nat, number: nat, python: string)
    requires Owned(db) && ActiveExactly(db) && BindingsOwned(db) && l in db.labels && v !in db.versions
    ensures var next := NewVersion(db, l, v, number, python); Owned(next) && ActiveExactly(next) && BindingsOwned(next)
  {
    var next := NewVersion(db, l, v, number, python);
    assert forall w | w in db.versions :: next.versions[w] == db.versions[w];
  }

  lemma NewNumber(db: Db, l: nat, v: nat, number: nat, python: string)
    requires NumbersUnique(db) && v !in db.versions && number !in Numbers(db, l)
    ensures NumbersUnique(NewVersion(db, l, v, number, python))
  {
    assert forall w | w in db.versions && db.versions[w].runtime == l :: db.versions[w].number in Numbers(db, l);
  }

  lemma NumbersKnown(db: Db, l: nat, numbers: set<nat>)
    requires numbers == set v | v in db.versions && db.versions[v].runtime == l :: db.versions[v].number
    ensures numbers == Numbers(db, l)
    ensures forall v | v in db.versions && db.versions[v].runtime == l :: db.versions[v].number < Latest(numbers) + 1
  {
    assert forall v | v in db.versions && db.versions[v].runtime == l :: db.versions[v].number in numbers;
  }

  lemma NoVersionsYet(db: Db, l: nat)
    requires Owned(db) && l !in db.labels
    ensures forall next: Db | next.versions == db.versions :: Numbers(next, l) == {}
  {
  }

  lemma MovedOwned(db: Db, v: nat)
    requires Inv(db) && v in db.versions
    ensures BindingsOwned(Activated(db, v))
  {
    hide NamesUnique, NumbersUnique, References;
  }

  lemma ActivatedShape(db: Db, v: nat)
    requires Owned(db) && v in db.versions
    ensures SameShape(db, Activated(db, v)) && Owned(Activated(db, v))
  {
    hide References, Moved;
  }

  lemma ActivatedExactly(db: Db, v: nat)
    requires Owned(db) && ActiveExactly(db) && v in db.versions
    ensures ActiveExactly(Activated(db, v))
  {
    hide References, Moved;
  }

  lemma ActivatedKeeps(db: Db, v: nat)
    requires Inv(db) && v in db.versions
    ensures Inv(Activated(db, v))
  {
    MovedOwned(db, v);
    ActivatedShape(db, v);
    ActivatedExactly(db, v);
    ShapeKeeps(db, Activated(db, v));
  }

  lemma LabelKeeps(db: Db, id: nat, name: string)
    requires Inv(db) && id !in db.labels && forall l | l in db.labels :: db.labels[l].name != name
    ensures Inv(db.(labels := db.labels[id := Runtime(name, None)]))
  {
    var next := db.(labels := db.labels[id := Runtime(name, None)]);
    assert NumbersUnique(next) && BindingsOwned(next);
    hide NumbersUnique, BindingsOwned;
    assert forall l | l in db.labels :: next.labels[l] == db.labels[l];
  }

  lemma ApplyKeeps(judge: Judge, db: Db, op: Op)
    requires Inv(db) && Sane(db, op)
    ensures Inv(Apply(judge, db, op))
  {
    hide Inv, Activated, NewVersion, References;
    var next := Apply(judge, db, op);
    if Allowed(judge, db, op) {
      match op
      case CreateLabel(id, name, first, python) =>
        LabelKeeps(db, id, name);
        NoVersionsYet(db, id) by { OwnedOf(db); }
        NewVersionKeeps(db.(labels := db.labels[id := Runtime(name, None)]), id, first, 1, python);
      case CreateVersion(l, id, python) => NewVersionKeeps(db, l, id, Latest(Numbers(db, l)) + 1, python);
      case CompleteValidation(v, _, _) => StatusKeeps(db, v, next, Ready);
      case FailValidation(v) => StatusKeeps(db, v, next, Failed);
      case Activate(v) => ActivatedKeeps(db, v);
      case Retire(v, finalize, _) =>
        NotActive(db, v);
        StatusKeeps(db, v, next, if finalize then Retired else Retiring);
      case Bind(r, b) => BindingAdded(db, r, b);
      case Unbind(_) => BindingsDropped(db, next);
    }
  }

  lemma OwnedOf(db: Db)
    requires Inv(db)
    ensures Owned(db)
  {
  }

  lemma NotActive(db: Db, v: nat)
    requires Inv(db) && v in db.versions
    ensures db.versions[v].runtime in db.labels
    ensures db.versions[v].status == Active <==> db.labels[db.versions[v].runtime].active == Some(v)
  {
  }

  lemma BindingAdded(db: Db, r: nat, b: Binding)
    requires Inv(db) && b.version in db.versions && db.versions[b.version].runtime == b.runtime
    ensures Inv(db.(bindings := db.bindings[r := b]))
  {
    BindingsKeep(db, db.(bindings := db.bindings[r := b]));
  }

  lemma BindingsDropped(db: Db, next: Db)
    requires Inv(db) && next.labels == db.labels && next.versions == db.versions
    requires forall r | r in next.bindings :: r in db.bindings && next.bindings[r] == db.bindings[r]
    ensures Inv(next)
  {
    BindingsKeep(db, next);
  }

  lemma BindingsKeep(db: Db, next: Db)
    requires Inv(db) && BindingsOwned(next) && next.labels == db.labels && next.versions == db.versions
    ensures Inv(next)
  {
  }

  // ---------------------------------------------------------------- over whole runs

  predicate SaneRun(judge: Judge, db: Db, ops: seq<Op>)
    decreases |ops|
  {
    ops == [] || (Sane(db, ops[0]) && SaneRun(judge, Apply(judge, db, ops[0]), ops[1..]))
  }

  function Run(judge: Judge, db: Db, ops: seq<Op>): Db
    decreases |ops|
  {
    if ops == [] then db else Run(judge, Apply(judge, db, ops[0]), ops[1..])
  }

  const EMPTY := Db(map[], map[], map[])

  lemma {:induction false} RunKeeps(judge: Judge, db: Db, ops: seq<Op>)
    requires Inv(db) && SaneRun(judge, db, ops)
    ensures Inv(Run(judge, db, ops))
    decreases |ops|
  {
    hide Inv, Apply, Sane;
    if ops != [] {
      ApplyKeeps(judge, db, ops[0]);
      RunKeeps(judge, Apply(judge, db, ops[0]), ops[1..]);
    }
  }

  /** After any run a label has at most one ACTIVE version, and it is the one it points at. */
  lemma OneActivePerLabel(judge: Judge, ops: seq<Op>, v: nat, w: nat)
    requires SaneRun(judge, EMPTY, ops)
    ensures var db := Run(judge, EMPTY, ops);
      v in db.versions && w in db.versions && db.versions[v].status == Active && db.versions[w].status == Active
      && db.versions[v].runtime == db.versions[w].runtime ==>
        v == w && db.versions[v].runtime in db.labels && db.labels[db.versions[v].runtime].active == Some(v)
  {
    RunKeeps(judge, EMPTY, ops);
    var db := Run(judge, EMPTY, ops);
    if v in db.versions { NotActive(db, v); }
    if w in db.versions { NotActive(db, w); }
  }

  /** A failed, retiring or retired version stays one. */
  lemma DeadStaysDead(judge: Judge, db: Db, op: Op, v: nat)
    requires Inv(db) && Sane(db, op) && v in db.versions && Dead(db.versions[v].status)
    ensures v in Apply(judge, db, op).versions && Dead(Apply(judge, db, op).versions[v].status)
  {
    hide References, Moved, TrackersMeet;
    if op.Activate? && Allowed(judge, db, op) {
      var l := db.versions[op.version].runtime;
      if db.labels[l].active.Some? { NotActive(db, db.labels[l].active.value); }
    }
  }

  /** However the run continues, such a version is never ACTIVE again. */
  lemma {:induction false} NeverActiveAgain(judge: Judge, db: Db, ops: seq<Op>, v: nat)
    requires Inv(db) && SaneRun(judge, db, ops) && v in db.versions && Dead(db.versions[v].status)
    ensures var end := Run(judge, db, ops);
      v in end.versions && Dead(end.versions[v].status) && forall l | l in end.labels :: end.labels[l].active != Some(v)
    decreases |ops|
  {
    hide Apply, Sane, SaneRun;
    if ops == [] {
      NotActive(db, v);
    } else {
      assert Sane(db, ops[0]) && SaneRun(judge, Apply(judge, db, ops[0]), ops[1..]) by { SaneFirst(judge, db, ops); }
      DeadStaysDead(judge, db, ops[0], v);
      ApplyKeeps(judge, db, ops[0]);
      NeverActiveAgain(judge, Apply(judge, db, ops[0]), ops[1..], v);
    }
  }

  lemma SaneFirst(judge: Judge, db: Db, ops: seq<Op>)
    requires SaneRun(judge, db, ops) && ops != []
    ensures Sane(db, ops[0]) && SaneRun(judge, Apply(judge, db, ops[0]), ops[1..])
  {
  }

  /** A version starts retiring only in a step after which no revision refers to it. */
  lemma RetiringIsUnreferenced(judge: Judge, db: Db, op: Op, v: nat)
    requires Inv(db) && Sane(db, op)
    requires v in db.versions && db.versions[v].status != Retiring
    requires Apply(judge, db, op).versions[v].status == Retiring
    ensures References(Apply(judge, db, op), v) == {}
  {
    hide Moved, TrackersMeet, NamesUnique, NumbersUnique;
    var next := Apply(judge, db, op);
    if op.Activate? {
      var l := db.versions[op.version].runtime;
      assert v != op.version && db.labels[l].active == Some(v);
      var active := WithStatus(db.(labels := db.labels[l := db.labels[l].(active := Some(op.version))], bindings := Moved(db, op.version)), op.version, Active);
      assert References(next, v) == References(active, v);
    } else {
      assert References(next, v) == References(db, v);
    }
  }

  /** Activation is all or nothing, and leaves every tracking revision on the new version, which it is compatible with. */
  lemma ActivationMovesTrackers(judge: Judge, db: Db, v: nat)
    requires Inv(db)
    ensures var next := Apply(judge, db, Activate(v));
      if CanActivate(judge, db, v)
      then
        && next.bindings.Keys == db.bindings.Keys
        && next.labels[db.versions[v].runtime].active == Some(v) && next.versions[v].status == Active
        && (forall r | r in db.bindings && Tracks(db, r, db.versions[v].runtime) ::
              && next.bindings[r] == db.bindings[r].(version := v,
                   resolved := ProfileRef(db.labels[db.versions[v].runtime].name, db.versions[v].number))
              && Meets(judge, next.versions[v], next.bindings[r]))
        && (forall r | r in db.bindings && !Tracks(db, r, db.versions[v].runtime) :: next.bindings[r] == db.bindings[r])
      else next == db
  {
    hide References, NamesUnique, NumbersUnique, BindingsOwned, ActiveExactly, Owned;
    if CanActivate(judge, db, v) {
      var next := Apply(judge, db, Activate(v));
      assert next.bindings == Moved(db, v);
      assert forall r | r in db.bindings && Tracks(db, r, db.versions[v].runtime) :: Meets(judge, db.versions[v], db.bindings[r]);
    }
  }

  /** The version that was active before retires exactly when no revision refers to it any more. */
  lemma PreviousRetiresExactly(judge: Judge, db: Db, v: nat, previous: nat)
    requires Inv(db) && CanActivate(judge, db, v) && previous != v
    requires db.labels[db.versions[v].runtime].active == Some(previous)
    ensures var next := Apply(judge, db, Activate(v));
      && previous in next.versions
      && next.versions[previous].status == if References(next, previous) == {} then Retiring else Ready
  {
    hide Moved, TrackersMeet, NamesUnique, NumbersUnique;
    var next := Apply(judge, db, Activate(v));
    var l := db.versions[v].runtime;
    var active := WithStatus(db.(labels := db.labels[l := db.labels[l].(active := Some(v))], bindings := Moved(db, v)), v, Active);
    assert References(next, previous) == References(active, previous);
  }

  /** Recording a failed validation has no guard of its own; it keeps the label and its version in step exactly when the version is not active. */
  lemma FailKeepsExactly(db: Db, v: nat)
    requires Inv(db) && v in db.versions
    ensures Inv(WithStatus(db, v, Failed)) <==> db.versions[v].status != Active
  {
    hide NamesUnique, NumbersUnique, BindingsOwned;
    NotActive(db, v);
    if db.versions[v].status != Active { StatusKeeps(db, v, WithStatus(db, v, Failed), Failed); }
  }

  // ---------------------------------------------------------------- the repository

  lemma SameReferences(db: Db, next: Db, v: nat)
    requires db.bindings == next.bindings
    ensures References(db, v) == References(next, v)
  {
  }

  /** What an activation reports: the services on the new version, and the version before with those still on it. */
  datatype Activation = Activation(references: nat, previous: Option<nat>, previousReferences: nat)

  class RuntimeRepository {
    const judge: Judge
    var labels: map<nat, Runtime>
    var versions: map<nat, Version>
    var bindings: map<nat, Binding>

    ghost function View(): Db
      reads this
    {
      Db(labels, versions, bindings)
    }

    ghost predicate Valid()
      reads this
    {
      Inv(View())
    }

    constructor (judge: Judge)
      ensures Valid() && View() == EMPTY && this.judge == judge
    {
      this.judge, labels, versions, bindings := judge, map[], map[], map[];
    }

    method CreateRuntimeLabel(id: nat, name: string, first: nat, python: string) returns (r: Result<nat, Error>)
      requires Valid() && Sane(View(), CreateLabel(id, name, first, python))
      modifies this
      ensures Valid() && View() == Apply(judge, old(View()), CreateLabel(id, name, first, python))
      ensures r == if exists l :: l in old(labels) && old(labels)[l].name == name then Err(InvalidTransition) else Ok(first)
      ensures r.Ok? ==> id in labels && labels[id] == Runtime(name, None)
      ensures r.Ok? ==> first in versions && versions[first] == Version(id, 1, python, map[], None, Validating)
    {
      hide Inv;
      ApplyKeeps(judge, View(), CreateLabel(id, name, first, python));
      if l :| l in labels && labels[l].name == name { return Err(InvalidTransition); }
      labels := labels[id := Runtime(name, None)];
      versions := versions[first := Version(id, 1, python, map[], None, Validating)];
      return Ok(first);
    }

    /** The next number of the label. */
    method CreateRuntimeVersion(l: nat, id: nat, python: string) returns (r: Result<nat, Error>)
      requires Valid() && id !in versions
      modifies this`versions
      ensures Valid() && View() == Apply(judge, old(View()), CreateVersion(l, id, python))
      ensures r == if l in labels then Ok(id) else Err(NotFound)
      ensures r.Ok? ==> id in versions && forall v | v in old(versions) && old(versions)[v].runtime == l ::
        versions[v].number < versions[id].number
      ensures r.Ok? ==> versions[id] == Version(l, versions[id].number, python, map[], None, Validating)
    {
      hide Inv, Latest, Numbers;
      ApplyKeeps(judge, View(), CreateVersion(l, id, python));
      if l !in labels { return Err(NotFound); }
      var numbers := set v | v in versions && versions[v].runtime == l :: versions[v].number;
      NumbersKnown(View(), l, numbers);
      versions := versions[id := Version(l, Latest(numbers) + 1, python, map[], None, Validating)];
      return Ok(id);
    }

    method CompleteValidation(v: nat, installed: map<string, string>, digest: string) returns (r: Result<Version, Error>)
      requires Valid()
      modifies this`versions
      ensures Valid() && View() == Apply(judge, old(View()), Op.CompleteValidation(v, installed, digest))
      ensures r.Ok? <==> v in old(versions) && old(versions)[v].status == Validating
      ensures r == Err(NotFound) <==> v !in old(versions)
      ensures r.Ok? ==> v in versions && r.value == versions[v]
      ensures r.Ok? ==> r.value.status == Ready && r.value.installed == installed && r.value.digest == Some(digest)
    {
      hide Inv;
      ApplyKeeps(judge, View(), Op.CompleteValidation(v, installed, digest));
      if v !in versions { return Err(NotFound); }
      if versions[v].status != Validating { return Err(InvalidTransition); }
      versions := versions[v := versions[v].(installed := installed, digest := Some(digest), status := Ready)];
      return Ok(versions[v]);
    }

    /** No guard: labels and versions stay in step exactly if the version was not active. */
    method FailValidation(v: nat) returns (r: Result<(), Error>)
      requires Valid()
      modifies this`versions
      ensures View() == Apply(judge, old(View()), Op.FailValidation(v))
      ensures Valid() <==> v in old(versions) ==> old(versions)[v].status != Active
      ensures r == if v in old(versions) then Ok(()) else Err(NotFound)
    {
      hide Inv;
      if v !in versions { return Err(NotFound); }
      FailKeepsExactly(View(), v);
      versions := versions[v := versions[v].(status := Failed)];
      return Ok(());
    }

    /** First every tracking revision is checked, then all of them move. */
    method ActivateProfile(v: nat) returns (r: Result<Activation, Error>)
      requires Valid()
      modifies this
      ensures Valid() && View() == Apply(judge, old(View()), Activate(v))
      ensures r.Ok? <==> CanActivate(judge, old(View()), v)
      ensures r == Err(NotFound) <==> v !in old(versions)
      ensures r.Ok? ==> r.value.previous == old(labels)[old(versions)[v].runtime].active
      ensures r.Ok? ==> r.value.references == |References(View(), v)|
      ensures r.Ok? && r.value.previous.Some? && r.value.previous.value != v ==> var p := r.value.previous.value;
        p in versions && versions[p].status == if References(View(), p) == {} then Retiring else Ready
      ensures r.Ok? ==> r.value.previousReferences == (if r.value.previous.Some? then |References(View(), r.value.previous.value)| else 0)
    {
      hide Inv, Meets, Moved, References;
      ghost var db := View();
      ApplyKeeps(judge, db, Activate(v));
      if v !in versions { return Err(NotFound); }
      if versions[v].status != Ready && versions[v].status != Active { return Err(InvalidTransition); }
      OwnedOf(db);
      var l := versions[v].runtime;
      var previous := labels[l].active;
      var tracking := set b | b in bindings && bindings[b].runtime == l && bindings[b].tracking == TrackActive;
      assert forall b | b in bindings :: b in tracking <==> Tracks(db, b, l);
      var ok := CheckTrackers(v, tracking);
      if !ok { return Err(InvalidTransition); }
      MoveTrackers(v, tracking);
      labels := labels[l := labels[l].(active := Some(v))];
      versions := versions[v := versions[v].(status := Active)];
      var previousReferences := 0;
      if previous.Some? { previousReferences := ReferenceCount(previous.value); }
      ghost var counted := View();
      if previous.Some? && previous.value != v {
        PreviousRetiresExactly(judge, db, v, previous.value);
        versions := versions[previous.value := versions[previous.value].(status := if previousReferences == 0 then Retiring else Ready)];
      }
      var references := ReferenceCount(v);
      if previous.Some? { SameReferences(counted, View(), previous.value); }
      return Ok(Activation(references, previous, previousReferences));
    }

    method ReferenceCount(v: nat) returns (n: nat)
      ensures n == |References(View(), v)|
    {
      var services := set b | b in bindings && bindings[b].version == v :: bindings[b].service;
      assert services == References(View(), v);
      return |services|;
    }

    method CheckTrackers(v: nat, tracking: set<nat>) returns (ok: bool)
      requires v in versions && forall b | b in bindings :: b in tracking <==> Tracks(View(), b, versions[v].runtime)
      requires tracking <= bindings.Keys
      ensures ok <==> TrackersMeet(judge, View(), v)
    {
      hide Tracks;
      var todo := tracking;
      while todo != {}
        invariant todo <= tracking
        invariant forall b | b in tracking && b !in todo :: Meets(judge, versions[v], bindings[b])
        decreases |todo|
      {
        var b :| b in todo;
        todo := todo - {b};
        var requirements := bindings[b].requirements;
        if requirements.None? { return false; }
        if !judge(versions[v].python, versions[v].installed, requirements.value) { return false; }
      }
      return true;
    }

    method MoveTrackers(v: nat, tracking: set<nat>)
      requires v in versions && versions[v].runtime in labels
      requires forall b | b in bindings :: b in tracking <==> Tracks(View(), b, versions[v].runtime)
      requires tracking <= bindings.Keys
      modifies this`bindings
      ensures bindings == Moved(old(View()), v)
    {
      hide Tracks;
      ghost var before := bindings;
      var target := ProfileRef(labels[versions[v].runtime].name, versions[v].number);
      var todo := tracking;
      while todo != {}
        invariant todo <= tracking && bindings.Keys == before.Keys
        invariant forall b | b in before ::
            bindings[b] == if b in tracking && b !in todo then before[b].(version := v, resolved := target) else before[b]
        decreases |todo|
      {
        var b :| b in todo;
        todo := todo - {b};
        bindings := bindings[b := bindings[b].(version := v, resolved := target)];
      }
    }

    /** Retiring needs a version nothing refers to and nothing runs on; finalizing needs a retiring one. */
    method RetireProfile(v: nat, finalize: bool, activeExecutions: nat) returns (r: Result<Version, Error>)
      requires Valid()
      modifies this`versions
      ensures Valid() && View() == Apply(judge, old(View()), Retire(v, finalize, activeExecutions))
      ensures r.Ok? <==> CanRetire(old(View()), v, finalize, activeExecutions)
      ensures r == Err(NotFound) <==> v !in old(versions)
      ensures r.Ok? ==> v in versions && r.value == versions[v] == old(versions)[v].(status := if finalize then Retired else Retiring)
    {
      hide Inv, References;
      ApplyKeeps(judge, View(), Retire(v, finalize, activeExecutions));
      OwnedOf(View());
      if v !in versions { return Err(NotFound); }
      if labels[versions[v].runtime].active == Some(v) { return Err(InvalidTransition); }
      var references := ReferenceCount(v);
      if references > 0 { return Err(InvalidTransition); }
      if versions[v].digest.Some? && activeExecutions > 0 { return Err(InvalidTransition); }
      if finalize {
        if versions[v].status != Retiring { return Err(InvalidTransition); }
        versions := versions[v := versions[v].(status := Retired)];
      } else {
        if versions[v].status == Retired { return Err(InvalidTransition); }
        versions := versions[v := versions[v].(status := Retiring)];
      }
      return Ok(versions[v]);
    }

    /** A published revision is bound to the version that was resolved for it. */
    method BindRevision(revision: nat, binding: Binding)
      requires Valid() && Sane(View(), Bind(revision, binding))
      modifies this`bindings
      ensures Valid() && View() == Apply(judge, old(View()), Bind(revision, binding))
      ensures revision in bindings && bindings[revision] == binding
    {
      hide Inv;
      ApplyKeeps(judge, View(), Bind(revision, binding));
      bindings := bindings[revision := binding];
    }

    /** Deleting a service drops the bindings of its revisions. */
    method UnbindService(service: nat)
      requires Valid()
      modifies this`bindings
      ensures Valid() && View() == Apply(judge, old(View()), Unbind(service))
      ensures forall r :: r in bindings <==> r in old(bindings) && old(bindings)[r].service != service
    {
      hide Inv;
      ApplyKeeps(judge, View(), Unbind(service));
      bindings := map r | r in bindings && bindings[r].service != service :: bindings[r];
    }
  }
}
