/** Finite directed graphs over names: reachability and acyclicity. */
module Graphs {

  type Name = string

  /** The groups nested in each group; a name without an entry has none. */
  type Graph = map<Name, seq<Name>>

  function Children(g: Graph, n: Name): seq<Name> {
    if n in g then g[n] else []
  }

  ghost predicate Edge(g: Graph, a: Name, b: Name) {
    b in Children(g, a)
  }

  ghost predicate IsPath(g: Graph, p: seq<Name>) {
    |p| > 0 && forall i :: 0 <= i < |p| - 1 ==> Edge(g, p[i], p[i + 1])
  }

  ghost predicate Connects(g: Graph, p: seq<Name>, a: Name, b: Name) {
    IsPath(g, p) && p[0] == a && p[|p| - 1] == b
  }

  /** b is a, or some chain of nestings leads from a to b. */
  ghost predicate Reaches(g: Graph, a: Name, b: Name) {
    exists p :: Connects(g, p, a, b)
  }

  /** No group is nested, however deeply, in itself. */
  ghost predicate Acyclic(g: Graph) {
    forall a, b :: Edge(g, a, b) ==> !Reaches(g, b, a)
  }

  lemma ReachesSelf(g: Graph, a: Name)
    ensures Reaches(g, a, a)
  {
    assert Connects(g, [a], a, a);
  }

  lemma ReachesEdge(g: Graph, a: Name, b: Name)
    requires Edge(g, a, b)
    ensures Reaches(g, a, b)
  {
    assert Connects(g, [a, b], a, b);
  }

  lemma ReachesTransitive(g: Graph, a: Name, b: Name, c: Name)
    requires Reaches(g, a, b) && Reaches(g, b, c)
    ensures Reaches(g, a, c)
  {
    var p :| Connects(g, p, a, b);
    var q :| Connects(g, q, b, c);
    var r := p + q[1..];
    forall i | 0 <= i < |r| - 1 ensures Edge(g, r[i], r[i + 1]) {
      if i >= |p| - 1 {
        assert r[i] == q[i - |p| + 1] && r[i + 1] == q[i - |p| + 2];
      }
    }
    assert Connects(g, r, a, c);
  }

  /** A set closed under nesting holds everything its members reach. */
  lemma ClosedHoldsReached(g: Graph, s: set<Name>, a: Name, b: Name)
    requires forall x, y :: x in s && Edge(g, x, y) ==> y in s
    requires a in s && Reaches(g, a, b)
    ensures b in s
  {
    var p :| Connects(g, p, a, b);
    for i := 0 to |p| - 1
      invariant p[i] in s
    {
      assert Edge(g, p[i], p[i + 1]);
    }
  }
}
