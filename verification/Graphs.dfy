/** Reachability in finite graphs, as a count of steps. */
module Graphs {

  type Graph = map<string, set<string>>

  /** b is reached from a in exactly k steps. */
  ghost predicate InSteps(g: Graph, a: string, b: string, k: nat)
    decreases k
  {
    a in g && if k == 0 then a == b else exists c :: c in g[a] && InSteps(g, c, b, k - 1)
  }

  ghost predicate Reaches(g: Graph, a: string, b: string) {
    exists k: nat :: InSteps(g, a, b, k)
  }

  ghost predicate Subgraph(g: Graph, h: Graph) {
    forall n | n in g :: n in h && g[n] <= h[n]
  }

  lemma {:induction false} StepsMonotone(g: Graph, h: Graph, a: string, b: string, k: nat)
    requires Subgraph(g, h) && InSteps(g, a, b, k)
    ensures InSteps(h, a, b, k)
    decreases k
  {
    if k > 0 {
      var c :| c in g[a] && InSteps(g, c, b, k - 1);
      StepsMonotone(g, h, c, b, k - 1);
    }
  }

  lemma ReachesMonotone(g: Graph, h: Graph, a: string, b: string)
    requires Subgraph(g, h) && Reaches(g, a, b)
    ensures Reaches(h, a, b)
  {
    var k: nat :| InSteps(g, a, b, k);
    StepsMonotone(g, h, a, b, k);
  }

  lemma ReachesSelf(g: Graph, a: string)
    requires a in g
    ensures Reaches(g, a, a)
  {
    assert InSteps(g, a, a, 0);
  }

  lemma ReachesBefore(g: Graph, a: string, c: string, b: string)
    requires a in g && c in g[a] && Reaches(g, c, b)
    ensures Reaches(g, a, b)
  {
    var k: nat :| InSteps(g, c, b, k);
    assert InSteps(g, a, b, k + 1);
  }
}
