/** Finite directed graphs, and what can be reached in them. */
module Graphs {

  type Graph<T> = map<T, set<T>>

  function Next<T>(g: Graph<T>, x: T): set<T> { if x in g then g[x] else {} }

  ghost predicate ClosedUnder<T>(g: Graph<T>, s: set<T>) {
    forall x | x in s :: Next(g, x) <= s
  }

  /** `y` is `x` or lies some edges further on: every closed set with `x` has `y`. */
  ghost predicate Reaches<T(!new)>(g: Graph<T>, x: T, y: T) {
    forall s: set<T> | x in s && ClosedUnder(g, s) :: y in s
  }

  /** At least one edge further on. */
  ghost predicate ReachesBeyond<T(!new)>(g: Graph<T>, x: T, y: T) {
    exists z :: z in Next(g, x) && Reaches(g, z, y)
  }

  lemma ReachesStep<T(!new)>(g: Graph<T>, x: T, y: T, z: T)
    requires Reaches(g, x, y) && z in Next(g, y)
    ensures Reaches(g, x, z)
  {}

  lemma ReachesTransitively<T(!new)>(g: Graph<T>, x: T, y: T, z: T)
    requires Reaches(g, x, y) && Reaches(g, y, z)
    ensures Reaches(g, x, z)
  {}

  ghost function Nodes<T>(g: Graph<T>): set<T> {
    g.Keys + set x, y | x in g && y in g[x] :: y
  }

  lemma NextInNodes<T>(g: Graph<T>, x: T)
    ensures Next(g, x) <= Nodes(g)
  {
    if x in g {
      forall y | y in g[x] ensures y in Nodes(g) {}
    }
  }

  /** All that `x` reaches, as a set. */
  ghost function From<T(!new)>(g: Graph<T>, x: T): (r: set<T>)
    ensures forall y :: y in r <==> Reaches(g, x, y)
  {
    var r := set y | y in Nodes(g) + {x} && Reaches(g, x, y);
    EverythingReachedIsANode(g, x);
    r
  }

  lemma EverythingReachedIsANode<T(!new)>(g: Graph<T>, x: T)
    ensures forall y | Reaches(g, x, y) :: y in Nodes(g) + {x}
  {
    var all := Nodes(g) + {x};
    forall z | z in all ensures Next(g, z) <= all { NextInNodes(g, z); }
    assert ClosedUnder(g, all);
  }

  /** Whatever is reached is the origin itself or lies beyond it. */
  lemma ReachedIsBeyond<T(!new)>(g: Graph<T>, x: T, y: T)
    requires Reaches(g, x, y) && y != x
    ensures ReachesBeyond(g, x, y)
  {
    var s := {x} + set u, z | z in Next(g, x) && u in Nodes(g) + {z} && Reaches(g, z, u) :: u;
    forall u | u in s ensures Next(g, u) <= s {
      forall v | v in Next(g, u) ensures v in s {
        NextInNodes(g, u);
        if u == x {
          assert Reaches(g, v, v);
        } else {
          var z :| z in Next(g, x) && u in Nodes(g) + {z} && Reaches(g, z, u);
          ReachesStep(g, z, u, v);
        }
      }
    }
    assert ClosedUnder(g, s);
  }
}
