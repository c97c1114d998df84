/** The breadth-first walk as functions of the queue and of what has been visited. */
module BfsSearch {
  import opened Identifiers
  import opened Catalogs
  import opened Admission
  import opened Pipelines

  /** A frontier entry: the DataState arrived at, the route that got there, and the index of its producer. */
  datatype Entry = Entry(at: Iri, steps: seq<DagStep>, edges: seq<DagEdge>, producer: int)

  function StepOf(cat: Catalog, c: Iri): DagStep { DagStep(c, cat.Inputs(c), cat.Outputs(c)) }

  function EdgesWith(e: Entry): seq<DagEdge> { e.edges + [DagEdge(e.producer, |e.steps|, e.at)] }

  /** The entry for one output of a capacity taken from `e`. */
  function Next(cat: Catalog, e: Entry, c: Iri, o: Iri): Entry { Entry(o, e.steps + [StepOf(cat, c)], EdgesWith(e), |e.steps|) }

  /** What a part of the walk comes to: the target, or more to walk. */
  datatype Sweep = Hit(route: Pipeline) | Swept(queue: seq<Entry>, visited: set<Iri>)

  datatype Bfs = Bfs(cat: Catalog, starts: set<Iri>, target: Iri, maxDepth: int)
  {
    /** The outputs of an admitted capacity from the `k`th on. */
    function Note(e: Entry, c: Iri, k: nat, queue: seq<Entry>, visited: set<Iri>): (r: Sweep)
      ensures r.Swept? ==> queue <= r.queue && visited <= r.visited <= visited + SeqSet(cat.Outputs(c))
      ensures r.Swept? && r.visited == visited ==> r.queue == queue
      decreases |cat.Outputs(c)| - k
    {
      if k >= |cat.Outputs(c)| then Swept(queue, visited)
      else
        var o := cat.Outputs(c)[k];
        if o == target then Hit(Pipeline(starts, target, e.steps + [StepOf(cat, c)], EdgesWith(e)))
        else if o in visited then Note(e, c, k + 1, queue, visited)
        else Note(e, c, k + 1, queue + [Next(cat, e, c, o)], visited + {o})
    }

    /** Refused by declaration, or for an input that is not on this path. */
    predicate Passes(e: Entry, c: Iri) {
      cat.Refused(c) || UnavailableInputs(cat.Inputs(c), Blackboard(starts, e.steps, |e.steps|)) != []
    }

    function Take(e: Entry, c: Iri, queue: seq<Entry>, visited: set<Iri>): Sweep {
      if Passes(e, c) then Swept(queue, visited) else Note(e, c, 0, queue, visited)
    }

    /** The consumers of the DataState arrived at, from the `k`th on. */
    function Expand(e: Entry, k: nat, queue: seq<Entry>, visited: set<Iri>): (r: Sweep)
      ensures r.Swept? ==> queue <= r.queue && visited <= r.visited <= visited + cat.Universe()
      ensures r.Swept? && r.visited == visited ==> r.queue == queue
      decreases |cat.Consumers(e.at)| - k
    {
      if k >= |cat.Consumers(e.at)| then Swept(queue, visited)
      else
        var c := cat.Consumers(e.at)[k];
        match Take(e, c, queue, visited)
        case Hit(route) => Hit(route)
        case Swept(queue', visited') =>
          OutputsInUniverse(c);
          Expand(e, k + 1, queue', visited')
    }

    lemma OutputsInUniverse(c: Iri)
      ensures SeqSet(cat.Outputs(c)) <= cat.Universe()
    {
      forall o | o in cat.Outputs(c) ensures o in cat.Universe() {
        assert c in cat.Producers(o);
        cat.ProducedInUniverse(c, o);
      }
    }

    /** The queue, from its front. */
    function Walk(queue: seq<Entry>, visited: set<Iri>): FindVerdict
      requires visited <= starts + cat.Universe()
      decreases starts + cat.Universe() - visited, |queue|
    {
      if queue == [] then NoRoute(BfsExhausted, map[])
      else if |queue[0].steps| >= maxDepth then Walk(queue[1..], visited)
      else
        match Expand(queue[0], 0, queue[1..], visited)
        case Hit(route) => Route(route)
        case Swept(queue', visited') => Walk(queue', visited')
    }

    /** `BFSFinder.find`. */
    function Find(startList: seq<Iri>): FindVerdict
      requires starts == SeqSet(startList)
    {
      if target in starts then Route(Pipeline(starts, target, [], []))
      else Walk(seq(|startList|, i requires 0 <= i < |startList| => Entry(startList[i], [], [], START)), starts)
    }
  }
}
