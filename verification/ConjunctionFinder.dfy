/** The conjunction finder as it runs: one construction walk whose lists and maps are updated in place. */
module ConjunctionFinder {
  import opened Identifiers
  import opened Catalogs
  import opened Pipelines
  import opened Conjunction

  /** What `fire` hands back: the index of the step, or the abort that unwinds the whole walk. */
  datatype Answer = At(index: nat) | Aborted(reason: Reason, unproducible: map<Iri, seq<Iri>>)

  datatype Wires = Gathered(incoming: seq<Wire>) | Unwound(reason: Reason, unproducible: map<Iri, seq<Iri>>)

  class Construction {
    const search: Search
    var steps: seq<DagStep>
    var edges: seq<DagEdge>
    var fired: map<Iri, nat>
    var inFlight: set<Iri>

    constructor (search: Search)
      ensures this.search == search && State() == NewWalk
    {
      this.search := search;
      steps, edges, fired, inFlight := [], [], map[], {};
    }

    function State(): Walk
      reads this
    {
      Walk(steps, edges, fired, inFlight)
    }

    /** Builds `c` and everything it needs; an abort leaves a walk that is thrown away. */
    method Fire(c: Iri, depth: nat, stack: set<Iri>) returns (r: Answer)
      modifies this
      ensures match search.Fire(c, depth, stack, old(State()))
        case FireAbort(reason, missing) => r == Aborted(reason, missing)
        case Fired(i, w) => r == At(i) && State() == w
      decreases search.Room(depth), 1
    {
      if c in fired { return At(fired[c]); }
      if depth > search.maxDepth { return Aborted(MaxDepthExceeded, map[]); }
      inFlight := inFlight + {c};
      var inputs := search.cat.Inputs(c);
      var incoming: seq<Wire> := [];
      ghost var all := search.WireInputs(c, inputs, [], depth, stack, State());
      for k := 0 to |inputs|
        invariant all == search.WireInputs(c, inputs[k..], incoming, depth, stack, State())
      {
        assert inputs[k..] == [inputs[k]] + inputs[k + 1..];
        var wires := WireInput(c, inputs[k], incoming, depth, stack);
        if wires.Unwound? { return Aborted(wires.reason, wires.unproducible); }
        incoming := wires.incoming;
      }
      r := At(|steps|);
      edges := edges + EdgesInto(incoming, |steps|);
      fired := fired[c := |steps|];
      steps := steps + [DagStep(c, inputs, search.cat.Outputs(c))];
      inFlight := inFlight - {c};
    }

    /** The body of the loop over the declared inputs of `c`. */
    method WireInput(c: Iri, d: Iri, wired: seq<Wire>, depth: nat, stack: set<Iri>) returns (r: Wires)
      requires depth <= search.maxDepth
      modifies this
      ensures match search.WireInput(c, d, wired, depth, stack, old(State()))
        case WireAbort(reason, missing) => r == Unwound(reason, missing)
        case Wired(incoming, w) => r == Gathered(incoming) && State() == w
      decreases search.Room(depth), 0
    {
      if d in search.starts { return Gathered(wired + [Wire(START, d)]); }
      var nxt := stack + {d};
      var admissible := search.EligibleOf(SortByIri(search.cat.Producers(d)), nxt, State());
      if admissible == [] && search.cat.GroupOf(c) == AllRequired {
        return Unwound(RequiredInputUnproducible, map[c := [d]]);
      }
      r := FanIn(search.Chosen(c, admissible), d, wired, depth + 1, nxt);
    }

    /** Fires each chosen producer of `d` and notes its wire. */
    method FanIn(ps: seq<Iri>, d: Iri, wired: seq<Wire>, depth: nat, stack: set<Iri>) returns (r: Wires)
      modifies this
      ensures match search.FanIn(ps, d, wired, depth, stack, old(State()))
        case WireAbort(reason, missing) => r == Unwound(reason, missing)
        case Wired(incoming, w) => r == Gathered(incoming) && State() == w
      decreases search.Room(depth), 2
    {
      var incoming := wired;
      for m := 0 to |ps|
        invariant search.FanIn(ps, d, wired, depth, stack, old(State())) == search.FanIn(ps[m..], d, incoming, depth, stack, State())
      {
        assert ps[m..] == [ps[m]] + ps[m + 1..];
        var a := Fire(ps[m], depth, stack);
        if a.Aborted? { return Unwound(a.reason, a.unproducible); }
        incoming := incoming + [Wire(a.index, d)];
      }
      r := Gathered(incoming);
    }
  }

  /** `ConjunctionFinder.find`. */
  method Find(cat: Catalog, starts: set<Iri>, target: Iri, maxDepth: int) returns (v: FindVerdict)
    ensures v == Search(cat, starts, maxDepth).Find(target)
  {
    var search := Search(cat, starts, maxDepth);
    if target in starts { return Route(Pipeline(starts, target, [], [])); }
    var satisfiable := search.SatisfiableOf(cat.Producers(target));
    if satisfiable == [] { return NoRoute(NoSatisfiableProducer, map[]); }
    assert satisfiable[0] in satisfiable;
    var walk := new Construction(search);
    var a := walk.Fire(SortByIri(satisfiable)[0], 0, {});
    if a.Aborted? { return NoRoute(a.reason, a.unproducible); }
    v := Route(Pipeline(starts, target, walk.steps, walk.edges));
  }
}
