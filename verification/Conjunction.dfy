/** Phase 2 of the conjunction finder, as a function of the walk's state. */
module Conjunction {
  import opened Identifiers
  import opened Catalogs
  import opened Reachability
  import opened Pipelines

  /** The mutable state of one construction walk. */
  datatype Walk = Walk(steps: seq<DagStep>, edges: seq<DagEdge>, fired: map<Iri, nat>, inFlight: set<Iri>)

  /** A wire waiting for its consumer's step index: producer index (or START) and DataState. */
  datatype Wire = Wire(producer: int, datastate: Iri)

  datatype FireResult =
    | Fired(index: nat, walk: Walk)
    | FireAbort(reason: Reason, unproducible: map<Iri, seq<Iri>>)

  datatype WireResult =
    | Wired(incoming: seq<Wire>, walk: Walk)
    | WireAbort(reason: Reason, unproducible: map<Iri, seq<Iri>>)

  const NewWalk := Walk([], [], map[], {})

  function EdgesInto(incoming: seq<Wire>, consumer: nat): (r: seq<DagEdge>)
    ensures |r| == |incoming|
  {
    seq(|incoming|, i requires 0 <= i < |incoming| => DagEdge(incoming[i].producer, consumer, incoming[i].datastate))
  }

  /** One call of `find`: the catalog, the starts and the depth bound. */
  datatype Search = Search(cat: Catalog, starts: set<Iri>, maxDepth: int)
  {
    predicate Satisfiable(c: Iri, stack: set<Iri>) { CapSatisfiable(cat, starts, c, stack) }

    /** `eligible`: not under construction, and already built or satisfiable under the live stack. */
    predicate Eligible(c: Iri, stack: set<Iri>, w: Walk) {
      c !in w.inFlight && (c in w.fired || Satisfiable(c, stack))
    }

    function EligibleOf(ps: seq<Iri>, stack: set<Iri>, w: Walk): (r: seq<Iri>)
      ensures forall p :: p in r <==> p in ps && Eligible(p, stack, w)
    {
      if ps == [] then []
      else (if Eligible(ps[0], stack, w) then [ps[0]] else []) + EligibleOf(ps[1..], stack, w)
    }

    function SatisfiableOf(ps: seq<Iri>): (r: seq<Iri>)
      ensures forall p :: p in r <==> p in ps && Satisfiable(p, {})
    {
      if ps == [] then []
      else (if Satisfiable(ps[0], {}) then [ps[0]] else []) + SatisfiableOf(ps[1..])
    }

    function Room(depth: nat): nat { if depth > maxDepth then 0 else maxDepth - depth + 1 }

    /** The step of `c` once its inputs are wired. */
    function Emit(w: Walk, c: Iri, incoming: seq<Wire>): Walk {
      Walk(
        w.steps + [DagStep(c, cat.Inputs(c), cat.Outputs(c))],
        w.edges + EdgesInto(incoming, |w.steps|),
        w.fired[c := |w.steps|],
        w.inFlight - {c})
    }

    function Fire(c: Iri, depth: nat, stack: set<Iri>, w: Walk): FireResult
      decreases Room(depth), 3, 0
    {
      if c in w.fired then Fired(w.fired[c], w)
      else if depth > maxDepth then FireAbort(MaxDepthExceeded, map[])
      else
        match WireInputs(c, cat.Inputs(c), [], depth, stack, w.(inFlight := w.inFlight + {c}))
        case WireAbort(reason, missing) => FireAbort(reason, missing)
        case Wired(incoming, w1) => Fired(|w1.steps|, Emit(w1, c, incoming))
    }

    /** The loop over the declared inputs of `c`, from the wires gathered so far. */
    function WireInputs(c: Iri, ds: seq<Iri>, incoming: seq<Wire>, depth: nat, stack: set<Iri>, w: Walk): WireResult
      requires depth <= maxDepth
      decreases Room(depth), 2, |ds|
    {
      if ds == [] then Wired(incoming, w)
      else
        match WireInput(c, ds[0], incoming, depth, stack, w)
        case WireAbort(reason, missing) => WireAbort(reason, missing)
        case Wired(more, w1) => WireInputs(c, ds[1..], more, depth, stack, w1)
    }

    /** One declared input of `c`. */
    function WireInput(c: Iri, d: Iri, incoming: seq<Wire>, depth: nat, stack: set<Iri>, w: Walk): WireResult
      requires depth <= maxDepth
      decreases Room(depth), 1, 0
    {
      if d in starts then Wired(incoming + [Wire(START, d)], w)
      else
        var nxt := stack + {d};
        var admissible := EligibleOf(SortByIri(cat.Producers(d)), nxt, w);
        if admissible == [] && cat.GroupOf(c) == AllRequired then WireAbort(RequiredInputUnproducible, map[c := [d]])
        else FanIn(Chosen(c, admissible), d, incoming, depth + 1, nxt, w)
    }

    /** A fold takes every admissible producer, the other groups the first, if there is one. */
    function Chosen(c: Iri, admissible: seq<Iri>): (r: seq<Iri>)
      ensures forall p | p in r :: p in admissible
      ensures r == [] <==> admissible == []
    {
      if cat.GroupOf(c) == Fold || admissible == [] then admissible else [admissible[0]]
    }

    /** Fire each of `ps` in turn and wire it as a producer of `d`. */
    function FanIn(ps: seq<Iri>, d: Iri, incoming: seq<Wire>, depth: nat, stack: set<Iri>, w: Walk): WireResult
      decreases Room(depth), 4, |ps|
    {
      if ps == [] then Wired(incoming, w)
      else
        match Fire(ps[0], depth, stack, w)
        case FireAbort(reason, missing) => WireAbort(reason, missing)
        case Fired(i, w1) => FanIn(ps[1..], d, incoming + [Wire(i, d)], depth, stack, w1)
    }

    /** `find`: held already, unreachable, or the first satisfiable producer of the target built. */
    function Find(target: Iri): FindVerdict {
      if target in starts then Route(Pipeline(starts, target, [], []))
      else if !exists c :: c in cat.Producers(target) && Satisfiable(c, {}) then NoRoute(NoSatisfiableProducer, map[])
      else
        Verdict(target, Fire(SortByIri(SatisfiableOf(cat.Producers(target)))[0], 0, {}, NewWalk))
    }

    function Verdict(target: Iri, r: FireResult): FindVerdict {
      match r
      case FireAbort(reason, missing) => NoRoute(reason, missing)
      case Fired(_, w) => Route(Pipeline(starts, target, w.steps, w.edges))
    }

    /** Past both early answers, `find` is one `fire` of a satisfiable producer of the target. */
    lemma FindFires(target: Iri) returns (c: Iri)
      requires target !in starts && exists p :: p in cat.Producers(target) && Satisfiable(p, {})
      ensures c in cat.Producers(target) && Satisfiable(c, {})
      ensures Find(target) == Verdict(target, Fire(c, 0, {}, NewWalk))
    {
      c := SortByIri(SatisfiableOf(cat.Producers(target)))[0];
    }

    /** It is the one that is first by IRI among all that are satisfiable. */
    lemma FindFiresTheFirst(target: Iri, c: Iri)
      requires target !in starts && c in cat.Producers(target) && Satisfiable(c, {})
      requires forall p | p in cat.Producers(target) && Satisfiable(p, {}) && Leq(p, c) :: p == c
      ensures Find(target) == Verdict(target, Fire(c, 0, {}, NewWalk))
    {
      var sorted := SortByIri(SatisfiableOf(cat.Producers(target)));
      var k :| 0 <= k < |sorted| && sorted[k] == c;
      assert sorted[0] in sorted;
      TextLeqTotal(c.text, c.text);
    }
  }
}
