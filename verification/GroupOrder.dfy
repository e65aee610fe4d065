/** The children-first order in which groups are tested. */
module GroupOrder {

  import opened Graphs

  /** What one depth-first walk has seen so far, and the names it has listed. */
  datatype Walk = Walk(seen: set<Name>, out: seq<Name>) {
    /** Seen but not listed: the groups whose visit is still under way. */
    ghost function Open(): set<Name> {
      set x | x in seen && x !in out
    }
  }

  ghost function Visited(g: Graph, n: Name, w: Walk): (r: Walk)
    ensures w.seen <= r.seen
    decreases g.Keys - w.seen, 1
  {
    if n in w.seen then w else
    var v := VisitedAll(g, Children(g, n), w.(seen := w.seen + {n}));
    v.(out := v.out + [n])
  }

  ghost function VisitedAll(g: Graph, ns: seq<Name>, w: Walk): (r: Walk)
    ensures w.seen <= r.seen
    decreases g.Keys - w.seen, 2 * |ns|
  {
    if ns == [] then w else VisitedAll(g, ns[1..], Visited(g, ns[0], w))
  }

  /** The names listed from roots. */
  ghost function OrderOf(g: Graph, roots: seq<Name>): seq<Name> {
    VisitedAll(g, roots, Walk({}, [])).out
  }

  /** The walk as the source runs it: one visitor whose two fields the recursion updates. */
  class Visitor {
    const children: Graph
    var seen: set<Name>
    var out: seq<Name>

    constructor (children: Graph)
      ensures this.children == children && seen == {} && out == []
    {
      this.children := children;
      seen, out := {}, [];
    }

    ghost function State(): Walk
      reads this
    {
      Walk(seen, out)
    }

    method Visit(name: Name)
      modifies this
      ensures State() == Visited(children, name, old(State()))
      decreases children.Keys - seen
    {
      if name in seen {
        return;
      }
      seen := seen + {name};
      if name in children {
        var nested := children[name];
        ghost var whole := VisitedAll(children, nested, State());
        var i := 0;
        while i < |nested|
          invariant i <= |nested|
          invariant old(seen) + {name} <= seen
          invariant VisitedAll(children, nested[i..], State()) == whole
        {
          Visit(nested[i]);
          assert nested[i..][1..] == nested[i + 1..];
          i := i + 1;
        }
      }
      out := out + [name];
    }
  }

  method Order(roots: seq<Name>, children: Graph) returns (out: seq<Name>)
    ensures out == OrderOf(children, roots)
    ensures IsTestOrder(children, roots, out)
  {
    var v := new Visitor(children);
    var i := 0;
    while i < |roots|
      invariant i <= |roots| && v.children == children
      invariant VisitedAll(children, roots[i..], v.State()) == VisitedAll(children, roots, Walk({}, []))
    {
      v.Visit(roots[i]);
      assert roots[i..][1..] == roots[i + 1..];
      i := i + 1;
    }
    out := v.out;
    OrderIsTestOrder(children, roots);
  }

  // ----- What the order promises

  ghost predicate NoDuplicates(s: seq<Name>) {
    forall i, j :: 0 <= i < j < |s| ==> s[i] != s[j]
  }

  /** Each nested group is listed before its parent unless it can itself reach the parent. */
  ghost predicate ChildrenFirst(g: Graph, s: seq<Name>) {
    forall i, c :: 0 <= i < |s| && Edge(g, s[i], c) ==> c in s[..i] || Reaches(g, c, s[i])
  }

  /** The names reachable from the roots, each once, children first. */
  ghost predicate IsTestOrder(g: Graph, roots: seq<Name>, s: seq<Name>) {
    && NoDuplicates(s)
    && (forall x :: x in s <==> exists r :: r in roots && Reaches(g, r, x))
    && ChildrenFirst(g, s)
  }

  ghost predicate WalkInvariant(g: Graph, w: Walk) {
    && NoDuplicates(w.out)
    && (forall x :: x in w.out ==> x in w.seen)
    && (forall x, c :: x in w.out && Edge(g, x, c) ==> c in w.seen)
    && ChildrenFirst(g, w.out)
  }

  lemma {:induction false} VisitKeeps(g: Graph, n: Name, w: Walk)
    requires WalkInvariant(g, w)
    requires forall x :: x in w.Open() ==> Reaches(g, x, n)
    ensures var r := Visited(g, n, w);
            WalkInvariant(g, r) && n in r.seen && r.Open() == w.Open()
            && forall x :: x in r.seen ==> x in w.seen || Reaches(g, n, x)
    decreases g.Keys - w.seen, 1
  {
    if n !in w.seen {
      var w1 := w.(seen := w.seen + {n});
      var cs := Children(g, n);
      forall x, c | x in w1.Open() && c in cs ensures Reaches(g, x, c) {
        assert Edge(g, n, c);
        ReachesEdge(g, n, c);
        if x != n {
          assert x in w.Open();
          ReachesTransitive(g, x, n, c);
        }
      }
      assert w1.Open() == w.Open() + {n};
      VisitAllKeeps(g, cs, w1);
      var v := VisitedAll(g, cs, w1);
      var r := Visited(g, n, w);
      ReachesSelf(g, n);
      assert n in v.Open();
      assert r.Open() == v.Open() - {n};
      forall i, c | 0 <= i < |r.out| && Edge(g, r.out[i], c)
        ensures c in r.out[..i] || Reaches(g, c, r.out[i])
      {
        if i < |v.out| {
          assert r.out[..i] == v.out[..i];
        } else {
          assert r.out[..i] == v.out;
          if c !in v.out {
            assert c in v.Open();
          }
        }
      }
      forall x | x in r.seen ensures x in w.seen || Reaches(g, n, x) {
        if x !in w1.seen {
          var c :| c in cs && Reaches(g, c, x);
          assert Edge(g, n, c);
          ReachesEdge(g, n, c);
          ReachesTransitive(g, n, c, x);
        }
      }
    }
  }

  lemma {:induction false} VisitAllKeeps(g: Graph, ns: seq<Name>, w: Walk)
    requires WalkInvariant(g, w)
    requires forall x, n :: x in w.Open() && n in ns ==> Reaches(g, x, n)
    ensures var r := VisitedAll(g, ns, w);
            WalkInvariant(g, r) && r.Open() == w.Open()
            && (forall n :: n in ns ==> n in r.seen)
            && forall x :: x in r.seen ==> x in w.seen || exists n :: n in ns && Reaches(g, n, x)
    decreases g.Keys - w.seen, 2 * |ns|
  {
    if ns != [] {
      VisitKeeps(g, ns[0], w);
      var v := Visited(g, ns[0], w);
      VisitAllKeeps(g, ns[1..], v);
      assert ns == [ns[0]] + ns[1..];
    }
  }

  lemma OrderIsTestOrder(g: Graph, roots: seq<Name>)
    ensures IsTestOrder(g, roots, OrderOf(g, roots))
  {
    var w := Walk({}, []);
    VisitAllKeeps(g, roots, w);
    var r := VisitedAll(g, roots, w);
    forall x | x in r.seen ensures x in r.out {
      assert x !in r.Open();
    }
    forall x, root | root in roots && Reaches(g, root, x) ensures x in r.out {
      ClosedHoldsReached(g, r.seen, root, x);
    }
  }

  /** Without cycles every nested group comes strictly before its parent. */
  lemma AcyclicListsChildrenBefore(g: Graph, roots: seq<Name>, s: seq<Name>, i: nat, c: Name)
    requires Acyclic(g) && IsTestOrder(g, roots, s)
    requires i < |s| && Edge(g, s[i], c)
    ensures c in s[..i]
  {
  }
}
