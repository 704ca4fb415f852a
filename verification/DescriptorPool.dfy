/** Adding descriptor files to a pool so that every file comes after the files it imports. */
module DescriptorPool {
  import opened Prelude
  import Names

  /** A descriptor file: the names it imports, and all else that it defines. */
  datatype File = File(imports: seq<string>, body: string)

  type Files = map<string, File>

  datatype Error = Missing(name: string) | Unresolved(names: seq<string>) | Conflict(name: string)

  // ---------------------------------------------------------------- cycles

  /** A walk along imports, inside a set of nodes. */
  predicate Walk(files: Files, nodes: set<string>, w: seq<string>) {
    && (forall i | 0 <= i < |w| :: w[i] in nodes && w[i] in files)
    && (forall i | 0 <= i < |w| - 1 :: w[i + 1] in files[w[i]].imports)
  }

  predicate ClosedWalk(files: Files, nodes: set<string>, w: seq<string>) {
    |w| >= 2 && w[0] == w[|w| - 1] && Walk(files, nodes, w)
  }

  ghost predicate HasCycle(files: Files, nodes: set<string>) {
    exists w :: ClosedWalk(files, nodes, w)
  }

  function Elements(s: seq<string>): set<string> { set x | x in s }

  lemma {:induction false} DistinctSize(s: seq<string>)
    requires Distinct(s)
    ensures |Elements(s)| == |s|
  {
    if s != [] {
      var n := |s| - 1;
      DistinctSize(s[..n]);
      assert s[n] !in s[..n];
      assert Elements(s) == Elements(s[..n]) + {s[n]};
    }
  }

  /** A list longer than the set its elements come from repeats one. */
  lemma RepeatIn(s: seq<string>, nodes: set<string>) returns (i: nat, j: nat)
    requires Elements(s) <= nodes && |s| > |nodes|
    ensures i < j < |s| && s[i] == s[j]
  {
    if Distinct(s) {
      DistinctSize(s);
      SubsetSize(Elements(s), nodes);
      assert false;
    }
    i, j :| 0 <= i < j < |s| && s[i] == s[j];
  }

  /** A way along imports from the file, through the nodes. */
  predicate Approach(files: Files, nodes: set<string>, n: string, p: seq<string>) {
    n in files && p != [] && p[0] in files[n].imports && Walk(files, nodes, p)
  }

  /** The imports of the file lead to a cycle. */
  ghost predicate LeadsToCycle(files: Files, nodes: set<string>, n: string) {
    exists p, w :: Approach(files, nodes, n, p) && ClosedWalk(files, nodes, w) && p[|p| - 1] == w[0]
  }

  predicate ImportsInto(files: Files, nodes: set<string>, n: string) {
    n in files && exists d :: d in files[n].imports && d in nodes
  }

  /** In a set where every file imports another of the set, walks go on for ever. */
  lemma {:induction false} WalkOn(files: Files, nodes: set<string>, start: string, length: nat) returns (w: seq<string>)
    requires start in nodes && length >= 1
    requires forall n | n in nodes :: ImportsInto(files, nodes, n)
    ensures Walk(files, nodes, w) && |w| == length && w[0] == start
    decreases length
  {
    if length == 1 {
      w := [start];
    } else {
      assert ImportsInto(files, nodes, start);
      var d :| d in files[start].imports && d in nodes;
      var rest := WalkOn(files, nodes, d, length - 1);
      w := [start] + rest;
    }
  }

  lemma StuckLeads(files: Files, nodes: set<string>, n: string, start: string)
    requires n in files && start in files[n].imports && start in nodes
    requires forall m | m in nodes :: ImportsInto(files, nodes, m)
    ensures LeadsToCycle(files, nodes, n)
  {
    var w := WalkOn(files, nodes, start, |nodes| + 1);
    hide ImportsInto, LeadsToCycle;
    WalkInside(files, nodes, w);
    var i, j := RepeatIn(w, nodes);
    RepeatLeads(files, nodes, n, w, i, j);
  }

  lemma WalkInside(files: Files, nodes: set<string>, w: seq<string>)
    requires Walk(files, nodes, w)
    ensures Elements(w) <= nodes
  {
  }

  /** A walk that meets itself ends in a cycle. */
  lemma RepeatLeads(files: Files, nodes: set<string>, n: string, w: seq<string>, i: nat, j: nat)
    requires n in files && w != [] && w[0] in files[n].imports && Walk(files, nodes, w)
    requires i < j < |w| && w[i] == w[j]
    ensures LeadsToCycle(files, nodes, n)
  {
    var p, c := w[..i + 1], w[i..j + 1];
    WalkPart(files, nodes, w, 0, i + 1);
    WalkPart(files, nodes, w, i, j + 1);
    hide Walk;
    assert w[0..i + 1] == p;
    assert Approach(files, nodes, n, p) && ClosedWalk(files, nodes, c) && p[|p| - 1] == c[0];
  }

  lemma WalkPart(files: Files, nodes: set<string>, w: seq<string>, i: nat, j: nat)
    requires i <= j <= |w| && Walk(files, nodes, w)
    ensures Walk(files, nodes, w[i..j])
  {
  }

  /** Every file of `adds` finds its imports before it. */
  predicate ImportsFirst(files: Files, before: set<string>, adds: seq<string>) {
    forall i | 0 <= i < |adds| :: Ready(files, before, adds[..i], adds[i])
  }

  predicate Ready(files: Files, before: set<string>, earlier: seq<string>, n: string) {
    n in files ==> forall d | d in files[n].imports :: d in before || d in earlier
  }

  /** Along a walk that avoids the preloaded files, positions go down. */
  lemma {:induction false} WalkGoesBack(files: Files, before: set<string>, adds: seq<string>, nodes: set<string>, w: seq<string>, i: nat) returns (j: nat)
    requires ImportsFirst(files, before, adds) && Walk(files, nodes, w) && nodes !! before && |w| >= 1
    requires i < |adds| && adds[i] == w[0]
    ensures j <= i && j < |adds| && adds[j] == w[|w| - 1] && (|w| >= 2 ==> j < i)
    decreases |w|
  {
    if |w| == 1 {
      j := i;
    } else {
      assert Ready(files, before, adds[..i], adds[i]) && w[1] in nodes;
      var k :| 0 <= k < i && adds[k] == w[1];
      j := WalkGoesBack(files, before, adds, nodes, w[1..], k);
    }
  }

  /** A file whose imports are all there leads to no cycle. */
  lemma ReadyDoesNotLead(files: Files, before: set<string>, adds: seq<string>, n: string)
    requires Distinct(adds) && ImportsFirst(files, before, adds) && n in files
    requires forall d | d in files[n].imports :: d in before + Elements(adds)
    ensures !LeadsToCycle(files, files.Keys - before, n)
  {
    var nodes := files.Keys - before;
    if LeadsToCycle(files, nodes, n) {
      var p, w :| Approach(files, nodes, n, p) && ClosedWalk(files, nodes, w) && p[|p| - 1] == w[0];
      assert p[0] in nodes && p[0] in Elements(adds);
      var i :| 0 <= i < |adds| && adds[i] == p[0];
      var j := WalkGoesBack(files, before, adds, nodes, p, i);
      var k := WalkGoesBack(files, before, adds, nodes, w, j);
    }
  }

  /** An order with imports first leaves no cycle. */
  lemma OrderedHasNoCycle(files: Files, before: set<string>, adds: seq<string>)
    requires Distinct(adds) && Elements(adds) == files.Keys && ImportsFirst(files, before, adds)
    ensures !HasCycle(files, files.Keys - before)
  {
    if HasCycle(files, files.Keys - before) {
      var w :| ClosedWalk(files, files.Keys - before, w);
      assert w[0] in Elements(adds);
      var i :| 0 <= i < |adds| && adds[i] == w[0];
      var j := WalkGoesBack(files, before, adds, files.Keys - before, w, i);
    }
  }

  // ---------------------------------------------------------------- files the default pool supplies

  /** The default pool is complete, and its imports are well founded. */
  ghost predicate Complete(bundled: Files, rank: string -> nat) {
    forall n, d | n in bundled && d in bundled[n].imports :: d in bundled && rank(d) < rank(n)
  }

  /** A file and everything it imports, directly or not. */
  ghost function Closure(bundled: Files, rank: string -> nat, n: string): set<string>
    requires Complete(bundled, rank) && n in bundled
    decreases rank(n), |bundled[n].imports| + 1
  {
    {n} + ClosureOfImports(bundled, rank, n, |bundled[n].imports|)
  }

  ghost function ClosureOfImports(bundled: Files, rank: string -> nat, n: string, k: nat): set<string>
    requires Complete(bundled, rank) && n in bundled && k <= |bundled[n].imports|
    decreases rank(n), k
  {
    if k == 0 then {}
    else ClosureOfImports(bundled, rank, n, k - 1) + Closure(bundled, rank, bundled[n].imports[k - 1])
  }

  lemma ClosureBegins(bundled: Files, rank: string -> nat, n: string)
    requires Complete(bundled, rank) && n in bundled
    ensures ClosureOfImports(bundled, rank, n, 0) == {}
    ensures Closure(bundled, rank, n) == {n} + ClosureOfImports(bundled, rank, n, |bundled[n].imports|)
  {
  }

  lemma ClosureStep(bundled: Files, rank: string -> nat, n: string, k: nat)
    requires Complete(bundled, rank) && n in bundled && k < |bundled[n].imports|
    ensures bundled[n].imports[k] in bundled && bundled[n].imports[k] in Closure(bundled, rank, bundled[n].imports[k])
    ensures ClosureOfImports(bundled, rank, n, k + 1)
      == ClosureOfImports(bundled, rank, n, k) + Closure(bundled, rank, bundled[n].imports[k])
  {
  }

  /** Imports that no local file provides. */
  function Externals(files: Files): set<string> {
    set n, d | n in files && d in files[n].imports && d !in files :: d
  }

  /** What the default pool supplies for a set of its files. */
  ghost function Supplied(bundled: Files, rank: string -> nat, names: set<string>): set<string>
    requires Complete(bundled, rank) && names <= bundled.Keys
  {
    set n, x | n in names && x in Closure(bundled, rank, n) :: x
  }

  lemma SortedPart(names: set<string>, sorted: seq<string>, i: nat)
    requires i <= |sorted| && forall n :: n in sorted <==> n in names
    ensures i == 0 ==> Elements(sorted[..i]) == {}
    ensures i < |sorted| ==> Elements(sorted[..i + 1]) == Elements(sorted[..i]) + {sorted[i]}
    ensures i == |sorted| ==> Elements(sorted[..i]) == names
  {
    if i < |sorted| { assert sorted[..i + 1] == sorted[..i] + [sorted[i]]; } else { assert sorted[..i] == sorted; }
  }

  /** In a sorted list the first name that is not there is the first of all that are not. */
  lemma FirstMissing(names: set<string>, sorted: seq<string>, i: nat, there: set<string>)
    requires i < |sorted| && (forall n :: n in sorted <==> n in names)
    requires forall j, k | 0 <= j < k < |sorted| :: Names.Before(sorted[j], sorted[k])
    requires Elements(sorted[..i]) <= there && sorted[i] !in there
    ensures Names.IsFirst(sorted[i], names - there)
  {
    hide Names.Before;
    forall n | n in names - there ensures n == sorted[i] || Names.Before(sorted[i], n) {
      var k :| 0 <= k < |sorted| && sorted[k] == n;
    }
  }

  lemma SuppliedNone(bundled: Files, rank: string -> nat)
    requires Complete(bundled, rank)
    ensures Supplied(bundled, rank, {}) == {}
  {
  }

  lemma SuppliedOneMore(bundled: Files, rank: string -> nat, names: set<string>, n: string)
    requires Complete(bundled, rank) && names <= bundled.Keys && n in bundled
    ensures Supplied(bundled, rank, names + {n}) == Supplied(bundled, rank, names) + Closure(bundled, rank, n)
  {
    hide Closure, Complete;
  }

  /** None of the files that the default pool supplies has the name of a local file. */
  ghost predicate SuppliesNoLocal(bundled: Files, rank: string -> nat, files: Files)
    requires Complete(bundled, rank) && Externals(files) <= bundled.Keys
  {
    forall n | n in Externals(files) :: Closure(bundled, rank, n) !! files.Keys
  }

  lemma SuppliesNoLocalExactly(bundled: Files, rank: string -> nat, files: Files)
    requires Complete(bundled, rank) && Externals(files) <= bundled.Keys
    ensures SuppliesNoLocal(bundled, rank, files) <==> Supplied(bundled, rank, Externals(files)) !! files.Keys
  {
    hide Closure, Complete, Externals;
    var supplied := Supplied(bundled, rank, Externals(files));
    forall n, x | n in Externals(files) && x in Closure(bundled, rank, n) ensures x in supplied {
    }
  }

  predicate ClosedUnderImports(bundled: Files, s: set<string>) {
    forall n, d | n in s && n in bundled && d in bundled[n].imports :: d in s
  }

  lemma {:induction false} ClosureInside(bundled: Files, rank: string -> nat, n: string, k: nat, s: set<string>)
    requires Complete(bundled, rank) && n in bundled && n in s && ClosedUnderImports(bundled, s) && k <= |bundled[n].imports|
    ensures ClosureOfImports(bundled, rank, n, k) <= s
    decreases rank(n), k
  {
    if k > 0 {
      ClosureInside(bundled, rank, n, k - 1, s);
      var d := bundled[n].imports[k - 1];
      ClosureInside(bundled, rank, d, |bundled[d].imports|, s);
    }
  }

  lemma ClosureIsLoaded(bundled: Files, rank: string -> nat, n: string, loaded: set<string>)
    requires Complete(bundled, rank) && n in loaded && ClosedUnderImports(bundled, loaded) && loaded <= bundled.Keys
    ensures loaded + Closure(bundled, rank, n) == loaded
  {
    ClosureInside(bundled, rank, n, |bundled[n].imports|, loaded);
  }

  /** The pool's files are exactly the loaded names, once each, imports first. */
  predicate PoolGood(bundled: Files, pool: seq<string>, loaded: set<string>) {
    && Distinct(pool) && Elements(pool) == loaded && loaded <= bundled.Keys
    && ImportsFirst(bundled, {}, pool)
  }

  lemma GoodIsClosed(bundled: Files, pool: seq<string>, loaded: set<string>)
    requires PoolGood(bundled, pool, loaded)
    ensures ClosedUnderImports(bundled, loaded) && loaded <= bundled.Keys
  {
    forall n, d | n in loaded && n in bundled && d in bundled[n].imports ensures d in loaded {
      assert n in Elements(pool);
      var i :| 0 <= i < |pool| && pool[i] == n;
      assert Ready(bundled, {}, pool[..i], pool[i]);
      assert d in Elements(pool);
    }
  }

  lemma PoolGrows(bundled: Files, pool: seq<string>, loaded: set<string>, n: string)
    requires PoolGood(bundled, pool, loaded) && n in bundled && n !in loaded
    requires forall d | d in bundled[n].imports :: d in loaded
    ensures PoolGood(bundled, pool + [n], loaded + {n})
  {
    var next := pool + [n];
    assert n !in Elements(pool);
    forall d | d in bundled[n].imports ensures d in pool { assert d in Elements(pool); }
    assert forall i | 0 <= i < |pool| :: next[..i] == pool[..i];
    assert next[..|pool|] == pool;
    assert Elements(next) == Elements(pool) + {n};
  }

  class Loader {
    const bundled: Files
    // names in the order in which files were added to the pool
    var pool: seq<string>
    var loaded: set<string>

    constructor (bundled: Files)
      ensures this.bundled == bundled && pool == [] && loaded == {}
      ensures PoolGood(bundled, pool, loaded)
    {
      this.bundled, pool, loaded := bundled, [], {};
    }

    /** Adds a bundled file after everything it imports; fails only if there is no such file. */
    method CopyDefaultDescriptor(name: string, ghost rank: string -> nat) returns (ok: bool)
      requires Complete(bundled, rank) && PoolGood(bundled, pool, loaded)
      modifies this`pool, this`loaded
      ensures PoolGood(bundled, pool, loaded) && old(pool) <= pool
      ensures ok <==> name in bundled
      ensures loaded == if ok then old(loaded) + Closure(bundled, rank, name) else old(loaded)
      decreases if name in bundled then rank(name) + 1 else 0
    {
      hide PoolGood, ClosedUnderImports, Closure, ClosureOfImports;
      GoodIsClosed(bundled, pool, loaded);
      if name in loaded {
        ClosureIsLoaded(bundled, rank, name, loaded);
        return true;
      }
      if name !in bundled { return false; }
      ClosureBegins(bundled, rank, name);
      var dependencies := bundled[name].imports;
      var k := 0;
      while k < |dependencies|
        invariant 0 <= k <= |dependencies| && PoolGood(bundled, pool, loaded) && old(pool) <= pool
        invariant loaded == old(loaded) + ClosureOfImports(bundled, rank, name, k)
        invariant forall d | d in dependencies[..k] :: d in loaded
        invariant name !in loaded
      {
        assert dependencies[k] in bundled[name].imports;
        ok := CopyDefaultDescriptor(dependencies[k], rank);
        ClosureStep(bundled, rank, name, k);
        NotItsOwnImport(bundled, rank, name, k);
        assert dependencies[..k + 1] == dependencies[..k] + [dependencies[k]];
        k := k + 1;
      }
      assert dependencies[..k] == dependencies;
      PoolGrows(bundled, pool, loaded, name);
      pool := pool + [name];
      loaded := loaded + {name};
      return true;
    }

    /** Copies every external import; stops at the first one that is nowhere. */
    method CopyExternals(names: set<string>, ghost rank: string -> nat) returns (missing: Option<string>)
      requires Complete(bundled, rank) && pool == [] && loaded == {}
      modifies this`pool, this`loaded
      ensures PoolGood(bundled, pool, loaded)
      ensures names <= bundled.Keys ==> loaded == Supplied(bundled, rank, names)
      ensures missing.None? <==> names <= bundled.Keys
      ensures missing.Some? ==> Names.IsFirst(missing.value, names - bundled.Keys)
    {
      hide PoolGood, Complete, Closure, Supplied, Elements, Names.Before;
      EmptyPoolGood(bundled);
      SuppliedNone(bundled, rank);
      var sorted := Names.Sorted(names);
      SortedPart(names, sorted, 0);
      for i := 0 to |sorted|
        invariant Elements(sorted[..i]) <= bundled.Keys && PoolGood(bundled, pool, loaded)
        invariant loaded == Supplied(bundled, rank, Elements(sorted[..i]))
      {
        var ok := CopyDefaultDescriptor(sorted[i], rank);
        SortedPart(names, sorted, i);
        if !ok {
          FirstMissing(names, sorted, i, bundled.Keys);
          return Some(sorted[i]);
        }
        SuppliedOneMore(bundled, rank, Elements(sorted[..i]), sorted[i]);
      }
      SortedPart(names, sorted, |sorted|);
      return None;
    }

    /** The pool ignores a file that it holds already, and refuses another one of its name. */
    method Add(files: Files, name: string) returns (ok: bool)
      requires name in files && loaded <= bundled.Keys && (name in pool <==> name in loaded)
      modifies this`pool
      ensures ok <==> Agrees(bundled, loaded, files, name)
      ensures pool == old(pool) + if ok then Kept([name], loaded) else []
    {
      if name in pool { return files[name] == bundled[name]; }
      pool := pool + [name];
      return true;
    }

    /**
     One pass over the waiting files, in order; a file added in the pass serves
     the files after it, and the pass ends when the pool refuses one.
     */
    method AddReady(files: Files, pending: seq<string>, available: set<string>)
      returns (waiting: seq<string>, adds: seq<string>, refused: Option<string>)
      requires Distinct(pending) && forall n | n in pending :: n in files && (n in pool <==> n in loaded)
      requires loaded <= bundled.Keys
      modifies this`pool
      ensures pool == old(pool) + Kept(adds, loaded)
      ensures ImportsFirst(files, available, adds) && (forall n | n in adds :: Agrees(bundled, loaded, files, n))
      ensures Distinct(adds) && Elements(adds) <= Elements(pending)
      ensures refused.None? ==> Split(pending, adds, waiting)
      ensures refused.None? && adds == [] ==> forall n | n in waiting :: Blocked(files, available, n)
      ensures refused.Some? ==> refused.value in pending && Refused(bundled, loaded, files, available + Elements(adds), refused.value)
    {
      hide ImportsFirst, Split, Blocked, Distinct, Elements, Agrees, Kept;
      waiting, adds := [], [];
      var added := available;
      NothingYet(files, available);
      NothingKept(loaded);
      for i := 0 to |pending|
        invariant pool == old(pool) + Kept(adds, loaded) && added == available + Elements(adds)
        invariant forall n | n in pending[i..] :: n in pool <==> n in loaded
        invariant ImportsFirst(files, available, adds) && Split(pending[..i], adds, waiting)
        invariant forall n | n in adds :: Agrees(bundled, loaded, files, n)
        invariant adds == [] ==> forall n | n in waiting :: Blocked(files, available, n)
      {
        var name := pending[i];
        assert pending[..i + 1] == pending[..i] + [name] && pending[i..] == [name] + pending[i + 1..];
        NewName(pending, i);
        SplitMore(pending[..i], adds, waiting, name);
        if forall d | d in files[name].imports :: d in added {
          var ok := Add(files, name);
          if !ok {
            SplitPart(pending, i, adds, waiting);
            return waiting, adds, Some(name);
          }
          ReadyNext(files, available, adds, name);
          KeptJoin(adds, [name], loaded);
          KeptMembers([name], loaded);
          NameIsGone(pending, i);
          adds := adds + [name];
          added := added + {name};
        } else {
          if adds == [] { IsBlocked(files, available, name); }
          waiting := waiting + [name];
        }
      }
      assert pending[..|pending|] == pending;
      SplitPart(pending, |pending|, adds, waiting);
      return waiting, adds, None;
    }

    /**
     Copies the external imports, then adds local files as their imports become
     available. All failures, and whether a file is handed over twice, depend on
     the files alone.
     */
    method LoadFiles(files: Files, order: seq<string>, ghost rank: string -> nat)
      returns (r: Result<seq<string>, Error>, ghost preloaded: seq<string>)
      requires Complete(bundled, rank) && pool == [] && loaded == {}
      requires Distinct(order) && Elements(order) == files.Keys
      modifies this
      ensures (r.Err? && r.error.Missing?) <==> !(Externals(files) <= bundled.Keys)
      ensures r.Err? && r.error.Missing? ==> Names.IsFirst(r.error.name, Externals(files) - bundled.Keys)
      ensures Externals(files) <= bundled.Keys ==> loaded == Supplied(bundled, rank, Externals(files))
      ensures (r.Err? && r.error.Conflict?) <==>
        Externals(files) <= bundled.Keys && exists n :: Clashes(bundled, Supplied(bundled, rank, Externals(files)), files, n)
      ensures r.Err? && r.error.Conflict? ==> Clashes(bundled, loaded, files, r.error.name)
      ensures (r.Err? && r.error.Unresolved?) <==>
        && Externals(files) <= bundled.Keys && HasCycle(files, files.Keys - Supplied(bundled, rank, Externals(files)))
        && !exists n :: Clashes(bundled, Supplied(bundled, rank, Externals(files)), files, n)
      ensures r.Err? && r.error.Unresolved? ==>
        r.error.names == Names.Sorted(set n | n in files && LeadsToCycle(files, files.Keys - loaded, n))
      ensures PoolGood(bundled, preloaded, loaded)
      ensures r.Ok? ==> pool == preloaded + Kept(r.value, loaded) && Distinct(pool) && AddedOnceInOrder(files, loaded, r.value)
      ensures r.Ok? ==> (Distinct(preloaded + r.value) <==> SuppliesNoLocal(bundled, rank, files))
      ensures r.Ok? <==>
        && Externals(files) <= bundled.Keys && !HasCycle(files, files.Keys)
        && forall n | n in files :: Agrees(bundled, Supplied(bundled, rank, Externals(files)), files, n)
      ensures Externals(files) <= bundled.Keys && SuppliesNoLocal(bundled, rank, files) ==>
        !(r.Err? && r.error.Conflict?) && ((r.Err? && r.error.Unresolved?) <==> HasCycle(files, files.Keys))
    {
      hide PoolGood, Complete, ImportsFirst, HasCycle, LeadsToCycle, Externals, Split, Blocked, Distinct, Elements, Supplied,
        SuppliesNoLocal, AddedOnceInOrder, Kept, Agrees;
      var missing := CopyExternals(Externals(files), rank);
      preloaded := pool;
      if missing.Some? { return Err(Missing(missing.value)), preloaded; }
      ExternalsLoaded(bundled, rank, files);
      ghost var external := loaded;
      NoClash(bundled, rank, files);
      CycleIsLocal(bundled, rank, files);
      LoadedInPool(bundled, preloaded, loaded);
      var pending, adds, added := order, [], loaded;
      NothingAdded(files, loaded, order);
      NothingKept(loaded);
      while pending != []
        invariant loaded == external && pool == preloaded + Kept(adds, loaded) && added == loaded + Elements(adds)
        invariant ImportsFirst(files, loaded, adds) && Split(order, adds, pending)
        invariant forall n | n in adds :: Agrees(bundled, loaded, files, n)
        decreases |pending|
      {
        SplitMembers(order, adds, pending);
        PendingInPool(preloaded, adds, loaded, order, pending);
        var waiting, more, refused := AddReady(files, pending, added);
        OrderJoin(files, loaded, adds, more);
        if refused.Some? {
          Refusal(bundled, loaded, files, order, adds, pending, more, refused.value);
          return Err(Conflict(refused.value)), preloaded;
        }
        if more == [] {
          NothingSplit(pending, waiting);
          BlockedHasCycle(files, loaded, order, adds, pending);
          StuckHasNoClash(bundled, loaded, files, order, adds, pending);
          CycleInLarger(files, files.Keys - loaded, files.Keys);
          StuckExactly(files, loaded, order, adds, pending);
          assert (set n | n in pending) == set n | n in files && LeadsToCycle(files, files.Keys - loaded, n);
          return Err(Unresolved(Names.Sorted(set n | n in pending))), preloaded;
        }
        SplitJoin(order, adds, pending, more, waiting);
        KeptJoin(adds, more, loaded);
        adds, pending, added := adds + more, waiting, added + Elements(more);
      }
      AllAdded(files, loaded, order, adds);
      OrderedHasNoCycle(files, loaded, adds);
      AddedOnceExactly(bundled, rank, files, preloaded, adds);
      AllAgree(bundled, loaded, files, adds);
      AcceptedHasNoCycle(bundled, rank, files, preloaded, loaded);
      KeptOnce(bundled, preloaded, loaded, adds);
      return Ok(adds), preloaded;
    }
  }

  // ---------------------------------------------------------------- files that the pool holds already

  /** The default file of that name, if the pool has one, is the local one. */
  predicate Agrees(bundled: Files, loaded: set<string>, files: Files, n: string) {
    n in loaded ==> n in bundled && n in files && files[n] == bundled[n]
  }

  /** The file comes up for adding and differs from the one that the pool holds. */
  predicate Refused(bundled: Files, loaded: set<string>, files: Files, available: set<string>, n: string) {
    n in files && !Agrees(bundled, loaded, files, n) && forall d | d in files[n].imports :: d in available
  }

  /** The file differs from the default one, and no cycle keeps it from being added. */
  ghost predicate Clashes(bundled: Files, loaded: set<string>, files: Files, n: string) {
    n in files && !Agrees(bundled, loaded, files, n) && !LeadsToCycle(files, files.Keys - loaded, n)
  }

  /** What the pool keeps of the names handed to it after the loaded ones. */
  function Kept(names: seq<string>, loaded: set<string>): seq<string> {
    if names == [] then []
    else Kept(names[..|names| - 1], loaded) + if names[|names| - 1] in loaded then [] else [names[|names| - 1]]
  }

  lemma NothingKept(loaded: set<string>)
    ensures Kept([], loaded) == [] && Elements([]) == {}
  {
  }

  lemma {:induction false} KeptJoin(a: seq<string>, b: seq<string>, loaded: set<string>)
    ensures Kept(a + b, loaded) == Kept(a, loaded) + Kept(b, loaded)
  {
    if b == [] {
      assert a + b == a;
    } else {
      KeptJoin(a, b[..|b| - 1], loaded);
      assert (a + b)[..|a + b| - 1] == a + b[..|b| - 1];
    }
  }

  lemma {:induction false} KeptMembers(names: seq<string>, loaded: set<string>)
    ensures forall n :: n in Kept(names, loaded) <==> n in names && n !in loaded
    ensures Distinct(names) ==> Distinct(Kept(names, loaded))
  {
    if names != [] {
      var rest := names[..|names| - 1];
      KeptMembers(rest, loaded);
      assert names == rest + [names[|names| - 1]];
    }
  }

  /** The pool holds every file once. */
  lemma KeptOnce(bundled: Files, preloaded: seq<string>, loaded: set<string>, adds: seq<string>)
    requires PoolGood(bundled, preloaded, loaded) && Distinct(adds)
    ensures Distinct(preloaded + Kept(adds, loaded))
  {
    hide ImportsFirst, Distinct;
    KeptMembers(adds, loaded);
    TwiceExactly(preloaded, Kept(adds, loaded));
  }

  lemma LoadedInPool(bundled: Files, preloaded: seq<string>, loaded: set<string>)
    requires PoolGood(bundled, preloaded, loaded)
    ensures loaded <= bundled.Keys && forall n :: n in preloaded <==> n in loaded
  {
    hide ImportsFirst, Distinct;
    forall n ensures n in preloaded <==> n in Elements(preloaded) {
    }
  }

  /** Of the waiting files the pool holds those that it was given by the default pool. */
  lemma PendingInPool(preloaded: seq<string>, adds: seq<string>, loaded: set<string>, order: seq<string>, pending: seq<string>)
    requires Split(order, adds, pending) && forall n :: n in preloaded <==> n in loaded
    ensures forall n | n in pending :: n in preloaded + Kept(adds, loaded) <==> n in loaded
  {
    KeptMembers(adds, loaded);
    assert forall n | n in adds :: n in Elements(adds);
    assert forall n | n in pending :: n in Elements(pending);
  }

  lemma AllAgree(bundled: Files, loaded: set<string>, files: Files, adds: seq<string>)
    requires Elements(adds) == files.Keys && forall n | n in adds :: Agrees(bundled, loaded, files, n)
    ensures forall n | n in files :: Agrees(bundled, loaded, files, n)
  {
    hide Agrees;
    forall n | n in files ensures n in adds { assert n in Elements(adds); }
  }

  /** Where the default pool supplies no local name, the pool refuses nothing. */
  lemma NoClash(bundled: Files, rank: string -> nat, files: Files)
    requires Complete(bundled, rank) && Externals(files) <= bundled.Keys
    ensures SuppliesNoLocal(bundled, rank, files) ==>
      forall n | n in files :: Agrees(bundled, Supplied(bundled, rank, Externals(files)), files, n)
  {
    hide SuppliesNoLocal, Supplied, Complete, Externals;
    SuppliesNoLocalExactly(bundled, rank, files);
  }

  /** A refused file clashes: its imports were all there. */
  lemma Refusal(bundled: Files, loaded: set<string>, files: Files, order: seq<string>, adds: seq<string>, pending: seq<string>,
    more: seq<string>, n: string)
    requires Split(order, adds, pending) && Distinct(more) && Elements(more) <= Elements(pending)
    requires ImportsFirst(files, loaded, adds + more)
    requires Refused(bundled, loaded, files, loaded + Elements(adds) + Elements(more), n)
    ensures Clashes(bundled, loaded, files, n)
  {
    hide ImportsFirst, LeadsToCycle, Distinct, Agrees;
    TwiceExactly(adds, more);
    ElementsJoin(adds, more);
    ReadyDoesNotLead(files, loaded, adds + more, n);
  }

  /** When the loop is stuck, no file that differs can still come up. */
  lemma StuckHasNoClash(bundled: Files, loaded: set<string>, files: Files, order: seq<string>, adds: seq<string>, pending: seq<string>)
    requires Elements(order) == files.Keys && Split(order, adds, pending) && Externals(files) <= loaded
    requires forall n | n in pending :: Blocked(files, loaded + Elements(adds), n)
    requires forall n | n in adds :: Agrees(bundled, loaded, files, n)
    ensures !exists n :: Clashes(bundled, loaded, files, n)
  {
    hide Blocked, Agrees, LeadsToCycle, Externals;
    forall n | n in files && !Agrees(bundled, loaded, files, n) ensures LeadsToCycle(files, files.Keys - loaded, n) {
      assert n in Elements(order);
      assert n in Elements(pending) || n in Elements(adds);
      BlockedLeads(files, loaded, order, adds, pending, n);
    }
  }

  /** Files that agree with the default ones, and have no cycle outside them, have none at all. */
  lemma AcceptedHasNoCycle(bundled: Files, rank: string -> nat, files: Files, preloaded: seq<string>, loaded: set<string>)
    requires Complete(bundled, rank) && PoolGood(bundled, preloaded, loaded)
    requires forall n | n in files :: Agrees(bundled, loaded, files, n)
    requires !HasCycle(files, files.Keys - loaded)
    ensures !HasCycle(files, files.Keys)
  {
    GoodIsClosed(bundled, preloaded, loaded);
    hide PoolGood;
    if HasCycle(files, files.Keys) {
      var w :| ClosedWalk(files, files.Keys, w);
      if i :| 0 <= i < |w| && w[i] in loaded {
        WalkDescends(bundled, rank, files, loaded, w[i..]);
        assert w[i..][|w[i..]| - 1] == w[0];
        WalkDescends(bundled, rank, files, loaded, w);
      } else {
        WalkOutside(files, loaded, w);
      }
    }
  }

  lemma WalkOutside(files: Files, loaded: set<string>, w: seq<string>)
    requires ClosedWalk(files, files.Keys, w) && forall i | 0 <= i < |w| :: w[i] !in loaded
    ensures HasCycle(files, files.Keys - loaded)
  {
    assert ClosedWalk(files, files.Keys - loaded, w);
  }

  /** Among files of the default pool imports go down in rank. */
  lemma {:induction false} WalkDescends(bundled: Files, rank: string -> nat, files: Files, loaded: set<string>, w: seq<string>)
    requires Complete(bundled, rank) && ClosedUnderImports(bundled, loaded) && loaded <= bundled.Keys
    requires forall n | n in files :: Agrees(bundled, loaded, files, n)
    requires w != [] && Walk(files, files.Keys, w) && w[0] in loaded
    ensures w[|w| - 1] in loaded && rank(w[|w| - 1]) + |w| - 1 <= rank(w[0])
    decreases |w|
  {
    if |w| > 1 {
      assert w[0 + 1] in files[w[0]].imports && Agrees(bundled, loaded, files, w[0]);
      WalkDescends(bundled, rank, files, loaded, w[1..]);
    }
  }

  // ---------------------------------------------------------------- the worklist

  predicate Blocked(files: Files, available: set<string>, n: string) {
    n in files && exists d :: d in files[n].imports && d !in available
  }

  /** Two parts of a list that share nothing and hold all of it. */
  predicate Split(all: seq<string>, a: seq<string>, b: seq<string>) {
    && Distinct(a) && Distinct(b) && Elements(a) !! Elements(b)
    && Elements(a) + Elements(b) == Elements(all) && |a| + |b| == |all|
  }

  /** Every local file is added exactly once, and only after everything it imports. */
  predicate AddedOnceInOrder(files: Files, loaded: set<string>, adds: seq<string>) {
    Distinct(adds) && Elements(adds) == files.Keys && ImportsFirst(files, loaded, adds)
  }

  lemma EmptyPoolGood(bundled: Files)
    ensures PoolGood(bundled, [], {})
  {
  }

  lemma ElementsJoin(a: seq<string>, b: seq<string>)
    ensures Elements(a + b) == Elements(a) + Elements(b)
  {
  }

  lemma SplitMore(all: seq<string>, a: seq<string>, b: seq<string>, n: string)
    requires Split(all, a, b) && n !in all
    ensures Split(all + [n], a + [n], b) && Split(all + [n], a, b + [n])
  {
    ElementsJoin(a, [n]);
    ElementsJoin(b, [n]);
    ElementsJoin(all, [n]);
    assert n !in Elements(all) && Elements([n]) == {n};
    assert n !in Elements(a) && n !in Elements(b);
  }

  lemma SplitPart(all: seq<string>, k: nat, a: seq<string>, b: seq<string>)
    requires k <= |all| && Split(all[..k], a, b)
    ensures Distinct(a) && Elements(a) <= Elements(all)
  {
    hide Distinct;
    assert forall n | n in all[..k] :: n in all;
  }

  lemma NothingYet(files: Files, available: set<string>)
    ensures ImportsFirst(files, available, []) && Split([], [], []) && Elements([]) == {}
  {
  }

  lemma NewName(all: seq<string>, i: nat)
    requires Distinct(all) && i < |all|
    ensures all[i] !in all[..i]
  {
  }

  lemma NameIsGone(all: seq<string>, i: nat)
    requires Distinct(all) && i < |all|
    ensures all[i] !in all[i + 1..]
  {
  }

  lemma IsBlocked(files: Files, available: set<string>, n: string)
    requires n in files && exists d :: d in files[n].imports && d !in available + Elements([])
    ensures Blocked(files, available, n)
  {
    var d :| d in files[n].imports && d !in available + Elements([]);
    assert d !in available;
  }

  lemma ReadyNext(files: Files, available: set<string>, adds: seq<string>, n: string)
    requires ImportsFirst(files, available, adds) && n in files
    requires forall d | d in files[n].imports :: d in available + Elements(adds)
    ensures ImportsFirst(files, available, adds + [n])
    ensures Elements(adds + [n]) == Elements(adds) + {n}
  {
    var next := adds + [n];
    assert forall i | 0 <= i < |adds| :: next[..i] == adds[..i];
    assert next[..|adds|] == adds;
    ElementsJoin(adds, [n]);
  }

  lemma ExternalsLoaded(bundled: Files, rank: string -> nat, files: Files)
    requires Complete(bundled, rank) && Externals(files) <= bundled.Keys
    ensures Externals(files) <= Supplied(bundled, rank, Externals(files))
  {
    hide ClosureOfImports, Externals;
    forall n | n in Externals(files) ensures n in Supplied(bundled, rank, Externals(files)) {
      assert n in Closure(bundled, rank, n);
    }
  }

  lemma NothingAdded(files: Files, loaded: set<string>, order: seq<string>)
    requires Distinct(order)
    ensures ImportsFirst(files, loaded, []) && Split(order, [], order)
  {
  }

  lemma SplitMembers(all: seq<string>, a: seq<string>, b: seq<string>)
    requires Split(all, a, b)
    ensures Distinct(b) && forall n | n in b :: n in Elements(all)
  {
    forall n | n in b ensures n in Elements(all) { assert n in Elements(b); }
  }

  lemma NothingSplit(pending: seq<string>, waiting: seq<string>)
    requires Split(pending, [], waiting)
    ensures forall n | n in pending :: n in waiting
  {
    forall n | n in pending ensures n in waiting { assert n in Elements(pending); assert n in Elements(waiting); }
  }

  lemma SplitJoin(all: seq<string>, adds: seq<string>, pending: seq<string>, more: seq<string>, waiting: seq<string>)
    requires Split(all, adds, pending) && Split(pending, more, waiting)
    ensures Split(all, adds + more, waiting) && |waiting| == |pending| - |more|
    ensures Elements(adds + more) == Elements(adds) + Elements(more)
  {
    ElementsJoin(adds, more);
    var next := adds + more;
    forall i, j | 0 <= i < j < |next| ensures next[i] != next[j] {
      if i < |adds| <= j { assert next[i] in Elements(adds) && next[j] in Elements(more); }
    }
  }

  lemma OrderJoin(files: Files, loaded: set<string>, adds: seq<string>, more: seq<string>)
    requires ImportsFirst(files, loaded, adds) && ImportsFirst(files, loaded + Elements(adds), more)
    ensures ImportsFirst(files, loaded, adds + more)
  {
    var next := adds + more;
    forall i | 0 <= i < |next| ensures Ready(files, loaded, next[..i], next[i]) {
      if i < |adds| {
        assert next[..i] == adds[..i] && next[i] == adds[i];
      } else {
        assert next[..i] == adds + more[..i - |adds|];
        assert Ready(files, loaded + Elements(adds), more[..i - |adds|], more[i - |adds|]);
      }
    }
  }

  /** When a whole pass adds nothing, the waiting files import each other in a circle. */
  lemma BlockedHasCycle(files: Files, loaded: set<string>, order: seq<string>, adds: seq<string>, pending: seq<string>)
    requires Elements(order) == files.Keys && Split(order, adds, pending) && pending != [] && Externals(files) <= loaded
    requires forall n | n in pending :: Blocked(files, loaded + Elements(adds), n)
    ensures HasCycle(files, files.Keys - loaded)
  {
    hide Split, Blocked, LeadsToCycle;
    assert pending[0] in pending;
    BlockedLeads(files, loaded, order, adds, pending, pending[0]);
    LeadingHasCycle(files, files.Keys - loaded, pending[0]);
  }

  lemma LeadingHasCycle(files: Files, nodes: set<string>, n: string)
    requires LeadsToCycle(files, nodes, n)
    ensures HasCycle(files, nodes)
  {
  }

  /** When a pass adds nothing, the files that wait are exactly those whose imports lead to a cycle. */
  lemma StuckExactly(files: Files, loaded: set<string>, order: seq<string>, adds: seq<string>, pending: seq<string>)
    requires Elements(order) == files.Keys && Split(order, adds, pending) && Externals(files) <= loaded
    requires ImportsFirst(files, loaded, adds) && forall m | m in pending :: Blocked(files, loaded + Elements(adds), m)
    ensures forall n :: n in pending <==> n in files && LeadsToCycle(files, files.Keys - loaded, n)
  {
    SplitMembers(order, adds, pending);
    forall n | n in files ensures n in pending <==> LeadsToCycle(files, files.Keys - loaded, n) {
      if n in pending {
        BlockedLeads(files, loaded, order, adds, pending, n);
      } else {
        AddedIsReady(files, loaded, adds, n);
        ReadyDoesNotLead(files, loaded, adds, n);
      }
    }
    hide LeadsToCycle, Blocked, Split;
  }

  lemma AddedIsReady(files: Files, loaded: set<string>, adds: seq<string>, n: string)
    requires ImportsFirst(files, loaded, adds) && n in files && n in adds
    ensures forall d | d in files[n].imports :: d in loaded + Elements(adds)
  {
    var i :| 0 <= i < |adds| && adds[i] == n;
    assert Ready(files, loaded, adds[..i], adds[i]);
  }

  /** Every file that waits in vain leads to a cycle. */
  lemma BlockedLeads(files: Files, loaded: set<string>, order: seq<string>, adds: seq<string>, pending: seq<string>, n: string)
    requires Elements(order) == files.Keys && Split(order, adds, pending) && n in pending && Externals(files) <= loaded
    requires forall m | m in pending :: Blocked(files, loaded + Elements(adds), m)
    ensures LeadsToCycle(files, files.Keys - loaded, n)
  {
    hide Split, Blocked, ImportsInto, LeadsToCycle;
    var nodes := Elements(pending) - loaded;
    forall m | m in pending ensures ImportsInto(files, nodes, m) {
      BlockedImports(files, loaded, order, adds, pending, m);
    }
    var start := ImportOf(files, nodes, n);
    StuckLeads(files, nodes, n, start);
    LeadsInLarger(files, nodes, files.Keys - loaded, n);
  }

  lemma ImportOf(files: Files, nodes: set<string>, n: string) returns (d: string)
    requires ImportsInto(files, nodes, n)
    ensures n in files && d in files[n].imports && d in nodes
  {
    d :| d in files[n].imports && d in nodes;
  }

  lemma BlockedImports(files: Files, loaded: set<string>, order: seq<string>, adds: seq<string>, pending: seq<string>, n: string)
    requires Elements(order) == files.Keys && Split(order, adds, pending) && Externals(files) <= loaded
    requires Blocked(files, loaded + Elements(adds), n)
    ensures ImportsInto(files, Elements(pending) - loaded, n) && Elements(pending) <= files.Keys
  {
    var d :| d in files[n].imports && d !in loaded + Elements(adds);
    assert d !in files ==> d in Externals(files);
    assert d in Elements(order);
  }

  lemma LeadsInLarger(files: Files, nodes: set<string>, larger: set<string>, n: string)
    requires LeadsToCycle(files, nodes, n) && forall m | m in nodes && m in files :: m in larger
    ensures LeadsToCycle(files, larger, n)
  {
    var p, w :| Approach(files, nodes, n, p) && ClosedWalk(files, nodes, w) && p[|p| - 1] == w[0];
    assert Approach(files, larger, n, p) && ClosedWalk(files, larger, w);
  }

  lemma CycleInLarger(files: Files, nodes: set<string>, larger: set<string>)
    requires HasCycle(files, nodes) && forall n | n in nodes && n in files :: n in larger
    ensures HasCycle(files, larger)
  {
    var w :| ClosedWalk(files, nodes, w);
    assert ClosedWalk(files, larger, w);
  }

  lemma AllAdded(files: Files, loaded: set<string>, order: seq<string>, adds: seq<string>)
    requires Elements(order) == files.Keys && Split(order, adds, []) && ImportsFirst(files, loaded, adds)
    ensures AddedOnceInOrder(files, loaded, adds) && Distinct(adds)
  {
    assert Elements([]) == {};
  }

  // ---------------------------------------------------------------- when the default pool supplies a local name

  lemma TwiceExactly(a: seq<string>, b: seq<string>)
    requires Distinct(a) && Distinct(b)
    ensures Distinct(a + b) <==> Elements(a) !! Elements(b)
  {
    var whole := a + b;
    if n :| n in Elements(a) && n in Elements(b) {
      var i :| 0 <= i < |a| && a[i] == n;
      var j :| 0 <= j < |b| && b[j] == n;
      assert whole[i] == whole[|a| + j];
    } else {
      forall i, j | 0 <= i < j < |whole| ensures whole[i] != whole[j] {
        if i < |a| <= j { assert whole[i] in Elements(a) && whole[j] in Elements(b); }
      }
    }
  }

  /** No file is added twice exactly when no import outside the local files leads to a file of a local name. */
  lemma AddedOnceExactly(bundled: Files, rank: string -> nat, files: Files, preloaded: seq<string>, adds: seq<string>)
    requires Complete(bundled, rank) && Externals(files) <= bundled.Keys
    requires PoolGood(bundled, preloaded, Supplied(bundled, rank, Externals(files)))
    requires AddedOnceInOrder(files, Supplied(bundled, rank, Externals(files)), adds)
    ensures Distinct(preloaded + adds) <==> SuppliesNoLocal(bundled, rank, files)
  {
    hide Supplied, SuppliesNoLocal, Complete, Distinct, Elements, ImportsFirst;
    SuppliesNoLocalExactly(bundled, rank, files);
    TwiceExactly(preloaded, adds);
  }

  /** Then the files are refused exactly when the local imports have a cycle. */
  lemma CycleIsLocal(bundled: Files, rank: string -> nat, files: Files)
    requires Complete(bundled, rank) && Externals(files) <= bundled.Keys
    ensures SuppliesNoLocal(bundled, rank, files) ==>
      (HasCycle(files, files.Keys - Supplied(bundled, rank, Externals(files))) <==> HasCycle(files, files.Keys))
  {
    hide HasCycle, Supplied, SuppliesNoLocal, Complete;
    SuppliesNoLocalExactly(bundled, rank, files);
    assert Supplied(bundled, rank, Externals(files)) !! files.Keys ==>
      files.Keys - Supplied(bundled, rank, Externals(files)) == files.Keys;
  }

  /** A default pool of two files, of which b imports x. */
  const BUNDLED: Files := map["b" := File(["x"], ""), "x" := File([], "")]

  function RankOfBundled(n: string): nat { if n == "b" then 1 else 0 }

  /** A local x, and a y that imports it and b. */
  const SAME_NAME: Files := map["x" := File([], ""), "y" := File(["b", "x"], "")]

  /** The same with another x. */
  const OTHER_FILE: Files := map["x" := File([], "other"), "y" := File(["b", "x"], "")]

  /** Local files x and y that import each other. */
  const HIDDEN_CYCLE: Files := map["x" := File(["y"], ""), "y" := File(["x", "b"], "")]

  lemma BundledSupplies()
    ensures Complete(BUNDLED, RankOfBundled) && Supplied(BUNDLED, RankOfBundled, {"b"}) == {"b", "x"}
  {
    assert forall n, d | n in BUNDLED && d in BUNDLED[n].imports :: d in BUNDLED && RankOfBundled(d) < RankOfBundled(n);
    assert BUNDLED["b"].imports[0] == "x";
    assert ClosureOfImports(BUNDLED, RankOfBundled, "x", 0) == {};
    assert Closure(BUNDLED, RankOfBundled, "x") == {"x"};
    assert ClosureOfImports(BUNDLED, RankOfBundled, "b", 0) == {};
    assert ClosureOfImports(BUNDLED, RankOfBundled, "b", 1) == {"x"};
    assert Closure(BUNDLED, RankOfBundled, "b") == {"b", "x"};
    SuppliedNone(BUNDLED, RankOfBundled);
    SuppliedOneMore(BUNDLED, RankOfBundled, {}, "b");
    assert {} + {"b"} == {"b"};
  }

  lemma ExternalB()
    ensures Externals(SAME_NAME) == Externals(OTHER_FILE) == Externals(HIDDEN_CYCLE) == {"b"}
  {
    OnlyExternal(SAME_NAME, "y", "b");
    OnlyExternal(OTHER_FILE, "y", "b");
    OnlyExternal(HIDDEN_CYCLE, "y", "b");
  }

  lemma OnlyExternal(files: Files, importer: string, name: string)
    requires importer in files && name in files[importer].imports && name !in files
    requires forall n | n in files :: forall d | d in files[n].imports :: d == name || d in files
    ensures Externals(files) == {name}
  {
  }

  /** The only file that is not supplied does not import itself. */
  lemma NoCycleThroughY(files: Files)
    requires files.Keys == {"x", "y"} && "y" !in files["y"].imports
    ensures !HasCycle(files, files.Keys - {"b", "x"})
  {
    forall w ensures !ClosedWalk(files, files.Keys - {"b", "x"}, w) {
      if |w| >= 2 && w[0] == "y" && w[0 + 1] == "y" { assert w[0 + 1] !in files[w[0]].imports; }
    }
  }

  lemma SameAgrees()
    ensures forall n | n in SAME_NAME :: Agrees(BUNDLED, {"b", "x"}, SAME_NAME, n)
  {
  }

  lemma SameHasNoCycle()
    ensures !HasCycle(SAME_NAME, SAME_NAME.Keys)
  {
    XAndY();
    assert Ready(SAME_NAME, {"b"}, [], "x") && Ready(SAME_NAME, {"b"}, ["x"], "y");
    assert ["x", "y"][..0] == [] && ["x", "y"][..1] == ["x"];
    OrderedHasNoCycle(SAME_NAME, {"b"}, ["x", "y"]);
    assert SAME_NAME.Keys - {"b"} == SAME_NAME.Keys;
  }

  lemma SuppliesX(files: Files)
    requires Externals(files) == {"b"} && "x" in files && Complete(BUNDLED, RankOfBundled)
    requires Supplied(BUNDLED, RankOfBundled, {"b"}) == {"b", "x"}
    ensures !SuppliesNoLocal(BUNDLED, RankOfBundled, files)
  {
    hide SuppliesNoLocal, Supplied, Complete;
    assert "b" in BUNDLED;
    SuppliesNoLocalExactly(BUNDLED, RankOfBundled, files);
  }

  /** Only x clashes, and y, which is no cycle by itself, does not keep it from being added. */
  lemma OnlyXClashes(files: Files)
    requires files.Keys == {"x", "y"} && "y" !in files["y"].imports && files["x"] != BUNDLED["x"]
    ensures forall n :: Clashes(BUNDLED, {"b", "x"}, files, n) <==> n == "x"
  {
    hide LeadsToCycle, HasCycle;
    NoCycleThroughY(files);
    if LeadsToCycle(files, files.Keys - {"b", "x"}, "x") { LeadingHasCycle(files, files.Keys - {"b", "x"}, "x"); }
  }

  method LoadConflict(files: Files) returns (r: Result<seq<string>, Error>)
    requires files == OTHER_FILE || files == HIDDEN_CYCLE
    ensures r == Err(Conflict("x"))
  {
    hide Clashes, HasCycle, Distinct, Kept, Agrees, SuppliesNoLocal, Supplied, Complete;
    BundledSupplies();
    ExternalB();
    OnlyXClashes(files);
    assert Clashes(BUNDLED, {"b", "x"}, files, "x");
    var loader := new Loader(BUNDLED);
    ghost var preloaded;
    XAndY();
    r, preloaded := loader.LoadFiles(files, ["x", "y"], RankOfBundled);
  }

  lemma XAndY()
    ensures Distinct(["x", "y"]) && Elements(["x", "y"]) == {"x", "y"}
  {
  }

  /** The default x is the local one: it is handed over twice and kept once. */
  method AddsTwice() returns (r: Result<seq<string>, Error>, pool: seq<string>, ghost preloaded: seq<string>)
    ensures r.Ok? && Elements(r.value) == SAME_NAME.Keys && Distinct(pool)
    ensures !Distinct(preloaded + r.value)
  {
    hide Agrees, HasCycle, Distinct, Kept, Clashes, SuppliesNoLocal, Supplied, Complete;
    BundledSupplies();
    ExternalB();
    SameHasNoCycle();
    SameAgrees();
    SuppliesX(SAME_NAME);
    XAndY();
    var loader := new Loader(BUNDLED);
    r, preloaded := loader.LoadFiles(SAME_NAME, ["x", "y"], RankOfBundled);
    pool := loader.pool;
  }

  /** Another x than the default one is refused. */
  method RefusesOther() returns (r: Result<seq<string>, Error>)
    ensures r == Err(Conflict("x"))
  {
    r := LoadConflict(OTHER_FILE);
  }

  /** So is one side of a cycle: the cycle through x is refused, but not as unresolved. */
  method HidesCycle() returns (r: Result<seq<string>, Error>)
    ensures r == Err(Conflict("x")) && HasCycle(HIDDEN_CYCLE, HIDDEN_CYCLE.Keys)
  {
    assert ClosedWalk(HIDDEN_CYCLE, HIDDEN_CYCLE.Keys, ["x", "y", "x"]);
    r := LoadConflict(HIDDEN_CYCLE);
  }

  lemma {:induction false} ClosureRanks(bundled: Files, rank: string -> nat, n: string, k: nat)
    requires Complete(bundled, rank) && n in bundled && k <= |bundled[n].imports|
    ensures forall x | x in ClosureOfImports(bundled, rank, n, k) :: rank(x) < rank(n)
    decreases rank(n), k
  {
    if k > 0 {
      ClosureRanks(bundled, rank, n, k - 1);
      var d := bundled[n].imports[k - 1];
      ClosureRanks(bundled, rank, d, |bundled[d].imports|);
    }
  }

  lemma NotItsOwnImport(bundled: Files, rank: string -> nat, n: string, k: nat)
    requires Complete(bundled, rank) && n in bundled && k < |bundled[n].imports|
    ensures n !in Closure(bundled, rank, bundled[n].imports[k])
  {
    var d := bundled[n].imports[k];
    ClosureRanks(bundled, rank, d, |bundled[d].imports|);
  }
}
