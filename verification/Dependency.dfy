/** Which DataStates a catalog lets depend on which, and the cycles among them. */
module Dependency {
  import opened Identifiers
  import opened Catalogs
  import Graphs

  /** Some capacity that no declaration refuses consumes `d` and produces `o`. */
  ghost predicate StepsTo(cat: Catalog, d: Iri, o: Iri) {
    exists c :: c in cat.caps && !cat.Refused(c) && d in cat.Inputs(c) && o in cat.Outputs(c)
  }

  ghost predicate IsPath(cat: Catalog, p: seq<Iri>) {
    p != [] && forall i | 0 <= i < |p| - 1 :: StepsTo(cat, p[i], p[i + 1])
  }

  /** From each DataState to those that some capacity computes from it. */
  ghost function Steps(cat: Catalog): Graphs.Graph<Iri> {
    map d | d in cat.Universe() :: set o | o in cat.Universe() && StepsTo(cat, d, o)
  }

  /** `y` is `x` or is computed, over any number of steps, from `x`. */
  ghost predicate Reaches(cat: Catalog, x: Iri, y: Iri) { Graphs.Reaches(Steps(cat), x, y) }

  /** It can do with one input or with another: an `any_of` of a single input is as good as all required. */
  ghost predicate Chooses(cat: Catalog, c: Iri) {
    cat.GroupOf(c) == AnyOf && exists d, e :: d in cat.Inputs(c) && e in cat.Inputs(c) && d != e
  }

  /** No capacity consumes something that its own output leads back to. */
  ghost predicate Acyclic(cat: Catalog) {
    forall c, d, o | c in cat.caps && !cat.Refused(c) && d in cat.Inputs(c) && o in cat.Outputs(c) :: !Reaches(cat, o, d)
  }

  lemma ReachesItself(cat: Catalog, x: Iri)
    ensures Reaches(cat, x, x)
  {}

  lemma ReachesThrough(cat: Catalog, c: Iri, d: Iri, o: Iri, y: Iri)
    requires c in cat.caps && !cat.Refused(c) && d in cat.Inputs(c) && o in cat.Outputs(c)
    requires Reaches(cat, o, y)
    ensures Reaches(cat, d, y)
  {
    cat.ConsumedInUniverse(c, d);
    assert c in cat.Producers(o);
    cat.ProducedInUniverse(c, o);
    assert StepsTo(cat, d, o);
    assert o in Graphs.Next(Steps(cat), d);
    Graphs.ReachesStep(Steps(cat), d, d, o);
    ReachesTransitive(cat, d, o, y);
  }

  lemma ReachesTransitive(cat: Catalog, x: Iri, y: Iri, z: Iri)
    requires Reaches(cat, x, y) && Reaches(cat, y, z)
    ensures Reaches(cat, x, z)
  {
    Graphs.ReachesTransitively(Steps(cat), x, y, z);
  }
}
