/** The grounding graph of one run: what each invocation consumed and produced. */
module Grounding {
  import opened Identifiers
  import opened Graphs
  import opened Folding
  import opened NodeIds

  datatype Value = Value(content: int)

  datatype Reason = StepFailed | NeedsInput | Cancelled | EmptyDomain | PartialDomain

  /** The reasons of a run that stopped at an invocation; the others come before any. */
  predicate Dispatched(reason: Reason): (r: bool)
    ensures r <==> !reason.Cancelled? && !reason.EmptyDomain? && !reason.PartialDomain?
  {
    reason.StepFailed? || reason.NeedsInput?
  }

  datatype Content =
    | DataStateInstance(datastate: Iri, value: Value)
    | CapacityInstance(capacity: Iri)
    | RunStopped(reason: Reason)
    | RunManifest

  /** A node and its place in the order the nodes were minted in. */
  datatype Node = Node(content: Content, minted: nat)

  datatype Edge = Consumes(source: Id, target: Id) | Produces(source: Id, target: Id) | StoppedAt(source: Id, target: Id)

  type Nodes = map<Id, Node>

  predicate IsValueIn(nodes: Nodes, id: Id) { id in nodes && nodes[id].content.DataStateInstance? }
  predicate IsCapacityIn(nodes: Nodes, id: Id) { id in nodes && nodes[id].content.CapacityInstance? }
  predicate Earlier(nodes: Nodes, a: Id, b: Id) { a in nodes && b in nodes && nodes[a].minted < nodes[b].minted }

  /** Each node has its own place. */
  ghost predicate Placed(nodes: Nodes) {
    && (forall id | id in nodes :: nodes[id].minted < |nodes|)
    && (forall a, b | a in nodes && b in nodes :: nodes[a].minted == nodes[b].minted ==> a == b)
  }

  /** Ids not yet given out are not in use. */
  ghost predicate Counted(nodes: Nodes, nextValue: map<Iri, nat>, nextCapacity: map<Iri, nat>) {
    forall id | id in nodes ::
      && (id.ValueId? ==> id.seq_no < At(nextValue, id.datastate))
      && (id.CapacityId? ==> id.seq_no < At(nextCapacity, id.capacity))
  }

  function At(counters: map<Iri, nat>, key: Iri): nat { if key in counters then counters[key] else 0 }

  /** CONSUMES and PRODUCES go from an earlier node to a later one; only a stop looks back. */
  ghost predicate EdgeFits(nodes: Nodes, e: Edge) {
    match e
    case Consumes(source, target) => IsValueIn(nodes, source) && IsCapacityIn(nodes, target) && Earlier(nodes, source, target)
    case Produces(source, target) => IsCapacityIn(nodes, source) && IsValueIn(nodes, target) && Earlier(nodes, source, target)
    case StoppedAt(source, target) => source == StopId && source in nodes && IsCapacityIn(nodes, target)
  }

  ghost predicate Forward(nodes: Nodes, edges: set<Edge>) { forall e | e in edges :: EdgeFits(nodes, e) }

  ghost predicate OneProducer(edges: set<Edge>) {
    forall e, f | e in edges && f in edges && e.Produces? && f.Produces? && e.target == f.target :: e == f
  }

  /** `id` is the latest value of `ds`. */
  ghost predicate IsLatest(nodes: Nodes, id: Id, ds: Iri) {
    && IsValueIn(nodes, id) && nodes[id].content.datastate == ds
    && forall o | IsValueIn(nodes, o) && nodes[o].content.datastate == ds :: nodes[o].minted <= nodes[id].minted
  }

  ghost predicate Current(nodes: Nodes, index: map<Iri, Id>, last: map<Iri, Value>, ds: Iri)
    requires ds in index && ds in last
  {
    IsLatest(nodes, index[ds], ds) && nodes[index[ds]].content.value == last[ds]
  }

  /** The index knows every DataState there is a value of, and has the latest one, holding what was last written. */
  ghost predicate Indexed(nodes: Nodes, index: map<Iri, Id>, last: map<Iri, Value>) {
    && index.Keys == last.Keys
    && (forall ds | ds in index :: Current(nodes, index, last, ds))
    && (forall id | IsValueIn(nodes, id) :: nodes[id].content.datastate in index)
  }

  /** What was there is there still, as it was. */
  ghost predicate Grows(before: Nodes, after: Nodes) { forall id | id in before :: id in after && after[id] == before[id] }

  // ---- what a new node and a new edge keep ----

  function Minted(nodes: Nodes, id: Id, content: Content): Nodes
    requires id !in nodes
  {
    nodes[id := Node(content, |nodes|)]
  }

  lemma MintedKeys(nodes: Nodes, id: Id, content: Content)
    requires id !in nodes
    ensures Minted(nodes, id, content).Keys == nodes.Keys + {id} && Minted(nodes, id, content)[id].content == content
  {}

  lemma MintedPlaced(nodes: Nodes, id: Id, content: Content)
    requires Placed(nodes) && id !in nodes
    ensures Placed(Minted(nodes, id, content)) && Grows(nodes, Minted(nodes, id, content))
    ensures forall o | o in nodes :: Earlier(Minted(nodes, id, content), o, id)
  {
    assert |Minted(nodes, id, content)| == |nodes| + 1;
  }

  lemma MintedForward(nodes: Nodes, id: Id, content: Content, edges: set<Edge>)
    requires Placed(nodes) && Forward(nodes, edges) && id !in nodes
    ensures Forward(Minted(nodes, id, content), edges)
  {
    var more := Minted(nodes, id, content);
    forall e | e in edges ensures EdgeFits(more, e) { assert EdgeFits(nodes, e); }
  }

  lemma MintedValueIndexed(nodes: Nodes, id: Id, ds: Iri, value: Value, index: map<Iri, Id>, last: map<Iri, Value>)
    requires Placed(nodes) && Indexed(nodes, index, last) && id !in nodes
    ensures Indexed(Minted(nodes, id, DataStateInstance(ds, value)), index[ds := id], last[ds := value])
  {
    var more := Minted(nodes, id, DataStateInstance(ds, value));
    var index', last' := index[ds := id], last[ds := value];
    MintedIsLatest(nodes, id, ds, value);
    forall d | d in index' ensures Current(more, index', last', d) {
      if d != ds { OthersStayLatest(nodes, id, ds, value, index, last, d); }
    }
    forall o | IsValueIn(more, o) ensures more[o].content.datastate in index' {
      if o != id { assert IsValueIn(nodes, o); }
    }
  }

  lemma MintedIsLatest(nodes: Nodes, id: Id, ds: Iri, value: Value)
    requires Placed(nodes) && id !in nodes
    ensures IsLatest(Minted(nodes, id, DataStateInstance(ds, value)), id, ds)
  {}

  lemma OthersStayLatest(nodes: Nodes, id: Id, ds: Iri, value: Value, index: map<Iri, Id>, last: map<Iri, Value>, d: Iri)
    requires id !in nodes && d in index && d in last && d != ds && Current(nodes, index, last, d)
    ensures Current(Minted(nodes, id, DataStateInstance(ds, value)), index, last, d)
  {}

  lemma MintedOtherIndexed(nodes: Nodes, id: Id, content: Content, index: map<Iri, Id>, last: map<Iri, Value>)
    requires Placed(nodes) && Indexed(nodes, index, last) && id !in nodes && !content.DataStateInstance?
    ensures Indexed(Minted(nodes, id, content), index, last)
  {
    var more := Minted(nodes, id, content);
    forall d | d in index ensures Current(more, index, last, d) { assert Current(nodes, index, last, d); }
    forall o | IsValueIn(more, o) ensures more[o].content.datastate in index { assert IsValueIn(nodes, o); }
  }

  /** A CONSUMES edge for each input the index knows an instance of. */
  function ConsumeEdges(index: map<Iri, Id>, cap: Id, inputs: seq<Iri>): set<Edge> {
    set ds | ds in inputs && ds in index :: Consumes(index[ds], cap)
  }

  /** A PRODUCES edge to the current instance of each of some DataStates. */
  function ProduceEdges(index: map<Iri, Id>, cap: Id, dss: set<Iri>): set<Edge> {
    set ds | ds in dss && ds in index :: Produces(cap, index[ds])
  }

  /** The current instance of each of some DataStates. */
  function CurrentOf(index: map<Iri, Id>, dss: set<Iri>): set<Id> {
    set ds | ds in dss && ds in index :: index[ds]
  }

  lemma CurrentOfMore(index: map<Iri, Id>, dss: set<Iri>, ds: Iri, id: Id)
    requires ds !in dss
    ensures CurrentOf(index[ds := id], dss + {ds}) == CurrentOf(index, dss) + {id}
  {
    var index' := index[ds := id];
    forall x | x in CurrentOf(index, dss) ensures x in CurrentOf(index', dss + {ds}) {
      var d :| d in dss && d in index && x == index[d];
      assert index'[d] == index[d];
    }
    assert index'[ds] in CurrentOf(index', dss + {ds});
    forall x | x in CurrentOf(index', dss + {ds}) ensures x in CurrentOf(index, dss) + {id} {
      var d :| d in dss + {ds} && d in index' && x == index'[d];
      if d != ds { assert d in index && index'[d] == index[d]; }
    }
  }

  lemma ProduceEdgesMore(index: map<Iri, Id>, cap: Id, dss: set<Iri>, ds: Iri, id: Id)
    requires ds !in dss
    ensures ProduceEdges(index[ds := id], cap, dss + {ds}) == ProduceEdges(index, cap, dss) + {Produces(cap, id)}
  {
    var index' := index[ds := id];
    forall e | e in ProduceEdges(index, cap, dss) ensures e in ProduceEdges(index', cap, dss + {ds}) {
      var d :| d in dss && d in index && e == Produces(cap, index[d]);
      assert index'[d] == index[d];
    }
    assert Produces(cap, index'[ds]) in ProduceEdges(index', cap, dss + {ds});
    forall e | e in ProduceEdges(index', cap, dss + {ds}) ensures e in ProduceEdges(index, cap, dss) + {Produces(cap, id)} {
      var d :| d in dss + {ds} && d in index' && e == Produces(cap, index'[d]);
      if d != ds { assert d in index && index'[d] == index[d]; }
    }
  }

  function Restricted(outputs: map<Iri, Value>, dss: set<Iri>): map<Iri, Value> {
    map ds | ds in dss && ds in outputs :: outputs[ds]
  }

  datatype Dag = Dag(nodes: Nodes, edges: set<Edge>, index: map<Iri, Id>, nextValue: map<Iri, nat>, nextCapacity: map<Iri, nat>)
  {
    ghost predicate Valid(last: map<Iri, Value>) {
      && Placed(nodes) && Counted(nodes, nextValue, nextCapacity) && Forward(nodes, edges) && OneProducer(edges)
      && Indexed(nodes, index, last)
    }

    ghost predicate Sound(last: map<Iri, Value>) { forall key {:trigger Asked(key)} :: Asked(key) && key == SOUND ==> Valid(last) }

    ghost predicate Extends(before: Dag) { Grows(before.nodes, nodes) && before.edges <= edges }

    function NewValue(ds: Iri): Id { ValueId(ds, At(nextValue, ds)) }
    function NewCapacity(c: Iri): Id { CapacityId(c, At(nextCapacity, c)) }

    /** `_mint_datastate`. */
    function MintValue(ds: Iri, value: Value): Dag
      requires NewValue(ds) !in nodes
    {
      this.(nodes := Minted(nodes, NewValue(ds), DataStateInstance(ds, value)),
            nextValue := nextValue[ds := At(nextValue, ds) + 1], index := index[ds := NewValue(ds)])
    }

    /** A number given to a value that was refused. */
    function SkipValue(ds: Iri): Dag { this.(nextValue := nextValue[ds := At(nextValue, ds) + 1]) }
    function SkipCapacity(c: Iri): Dag { this.(nextCapacity := nextCapacity[c := At(nextCapacity, c) + 1]) }

    lemma SkipKeeps(ds: Iri, last: map<Iri, Value>)
      requires Sound(last)
      ensures SkipValue(ds).Sound(last) && SkipCapacity(ds).Sound(last)
    {
      assert Asked(SOUND);
    }

    lemma MintValueKeeps(ds: Iri, value: Value, last: map<Iri, Value>)
      requires Sound(last)
      ensures NewValue(ds) !in nodes
      ensures MintValue(ds, value).Sound(last[ds := value]) && MintValue(ds, value).Extends(this)
      ensures forall o | o in nodes :: Earlier(MintValue(ds, value).nodes, o, NewValue(ds))
    {
      assert Asked(SOUND);
      assert NewValue(ds) !in nodes;
      var content := DataStateInstance(ds, value);
      MintedPlaced(nodes, NewValue(ds), content);
      MintedForward(nodes, NewValue(ds), content, edges);
      MintedValueIndexed(nodes, NewValue(ds), ds, value, index, last);
    }

    function MintRoot(ds: Iri, value: Value): Dag
      requires RootId(ds) !in nodes
    {
      this.(nodes := Minted(nodes, RootId(ds), DataStateInstance(ds, value)), index := index[ds := RootId(ds)])
    }

    lemma RootKeeps(ds: Iri, value: Value, last: map<Iri, Value>)
      requires Sound(last) && RootId(ds) !in nodes
      ensures MintRoot(ds, value).Sound(last[ds := value]) && MintRoot(ds, value).Extends(this)
    {
      assert Asked(SOUND);
      var content := DataStateInstance(ds, value);
      MintedPlaced(nodes, RootId(ds), content);
      MintedForward(nodes, RootId(ds), content, edges);
      MintedValueIndexed(nodes, RootId(ds), ds, value, index, last);
    }

    function MintCapacity(c: Iri): Dag
      requires NewCapacity(c) !in nodes
    {
      this.(nodes := Minted(nodes, NewCapacity(c), CapacityInstance(c)),
            nextCapacity := nextCapacity[c := At(nextCapacity, c) + 1])
    }

    lemma MintCapacityKeeps(c: Iri, last: map<Iri, Value>)
      requires Sound(last)
      ensures NewCapacity(c) !in nodes
      ensures MintCapacity(c).Sound(last) && MintCapacity(c).Extends(this)
    {
      assert Asked(SOUND);
      assert NewCapacity(c) !in nodes;
      MintedPlaced(nodes, NewCapacity(c), CapacityInstance(c));
      MintedForward(nodes, NewCapacity(c), CapacityInstance(c), edges);
      MintedOtherIndexed(nodes, NewCapacity(c), CapacityInstance(c), index, last);
    }

    lemma CurrentIsEarlier(c: Iri, last: map<Iri, Value>)
      requires Sound(last) && NewCapacity(c) !in nodes
      ensures forall ds | ds in index :: Earlier(MintCapacity(c).nodes, index[ds], NewCapacity(c))
    {
      assert Asked(SOUND);
      MintedPlaced(nodes, NewCapacity(c), CapacityInstance(c));
      forall ds | ds in index ensures index[ds] in nodes { assert Current(nodes, index, last, ds); }
    }

    /** The terminal node, or the manifest. */
    function MintMark(id: Id, content: Content): Dag
      requires id !in nodes
    {
      this.(nodes := Minted(nodes, id, content))
    }

    lemma MintMarkKeeps(id: Id, content: Content, last: map<Iri, Value>)
      requires Sound(last) && id !in nodes && (id == StopId || id == ManifestId) && !content.DataStateInstance?
      ensures MintMark(id, content).Sound(last) && MintMark(id, content).Extends(this)
    {
      assert Asked(SOUND);
      MintedPlaced(nodes, id, content);
      MintedForward(nodes, id, content, edges);
      MintedOtherIndexed(nodes, id, content, index, last);
    }

    lemma ConsumeKeeps(cap: Id, inputs: seq<Iri>, last: map<Iri, Value>)
      requires Sound(last) && IsCapacityIn(nodes, cap) && forall ds | ds in index :: Earlier(nodes, index[ds], cap)
      ensures this.(edges := edges + ConsumeEdges(index, cap, inputs)).Sound(last)
    {
      assert Asked(SOUND);
      forall e | e in ConsumeEdges(index, cap, inputs) ensures EdgeFits(nodes, e) {
        var ds :| ds in inputs && ds in index && e == Consumes(index[ds], cap);
        assert Current(nodes, index, last, ds);
      }
    }

    lemma ProduceKeeps(cap: Id, target: Id, last: map<Iri, Value>)
      requires Sound(last) && IsCapacityIn(nodes, cap) && IsValueIn(nodes, target) && Earlier(nodes, cap, target)
      requires forall e | e in edges && e.Produces? :: e.target != target
      ensures this.(edges := edges + {Produces(cap, target)}).Sound(last)
    {
      assert Asked(SOUND);
    }

    lemma ProducedAreThere(last: map<Iri, Value>)
      requires Sound(last)
      ensures forall e | e in edges && e.Produces? :: e.target in nodes
    {
      assert Asked(SOUND);
      assert forall e | e in edges :: EdgeFits(nodes, e);
    }

    lemma StopKeeps(cap: Id, last: map<Iri, Value>)
      requires Sound(last) && IsCapacityIn(nodes, cap) && StopId in nodes
      ensures this.(edges := edges + {StoppedAt(StopId, cap)}).Sound(last)
    {
      assert Asked(SOUND);
      assert EdgeFits(nodes, StoppedAt(StopId, cap));
    }
  }

  const SOUND := 0

  const EMPTY := Dag(map[], {}, map[], map[], map[])

  lemma NodesAreCounted(g: Dag, last: map<Iri, Value>, id: Id)
    requires g.Sound(last) && id in g.nodes
    ensures id.ValueId? ==> id.seq_no < At(g.nextValue, id.datastate)
    ensures id.CapacityId? ==> id.seq_no < At(g.nextCapacity, id.capacity)
  {
    assert Asked(SOUND);
  }

  /** The CONSUMES edges into an invocation come from the instances that were current for its inputs, one and all, and no
      other CONSUMES edge is new. */
  ghost predicate ConsumesExactly(before: Dag, id: Id, inputs: seq<Iri>, edges: set<Edge>) {
    && (forall x :: Consumes(x, id) in edges <==> exists ds :: ds in inputs && ds in before.index && before.index[ds] == x)
    && forall e | e in edges && e.Consumes? && e.target != id :: e in before.edges
  }

  /** The PRODUCES edges out of an invocation go to the instances now current for what was written, one and all, and no
      other PRODUCES edge is new. */
  ghost predicate ProducesExactly(before: Dag, id: Id, done: set<Iri>, index: map<Iri, Id>, edges: set<Edge>) {
    && (forall x :: Produces(id, x) in edges <==> exists ds :: ds in done && ds in index && index[ds] == x)
    && forall e | e in edges && e.Produces? && e.source != id :: e in before.edges
  }

  /** An invocation's edges, its node being a new one. */
  lemma EdgesSay(
    before: Dag, last: map<Iri, Value>, id: Id, inputs: seq<Iri>, done: set<Iri>, index: map<Iri, Id>, stop: set<Edge>, edges: set<Edge>)
    requires before.Sound(last) && id !in before.nodes && forall e | e in stop :: e.StoppedAt?
    requires edges == before.edges + ConsumeEdges(before.index, id, inputs) + ProduceEdges(index, id, done) + stop
    ensures ConsumesExactly(before, id, inputs, edges) && ProducesExactly(before, id, done, index, edges)
  {
    EdgesAreElsewhere(before, last, id);
    forall x ensures Consumes(x, id) in edges <==> exists ds :: ds in inputs && ds in before.index && before.index[ds] == x {
      assert Consumes(x, id) in edges <==> Consumes(x, id) in ConsumeEdges(before.index, id, inputs);
    }
    forall x ensures Produces(id, x) in edges <==> exists ds :: ds in done && ds in index && index[ds] == x {
      assert Produces(id, x) in edges <==> Produces(id, x) in ProduceEdges(index, id, done);
    }
  }

  lemma EdgesAreElsewhere(g: Dag, last: map<Iri, Value>, id: Id)
    requires g.Sound(last) && id !in g.nodes
    ensures forall e | e in g.edges :: e.source != id && e.target != id
  {
    assert Asked(SOUND);
    forall e | e in g.edges ensures e.source != id && e.target != id { assert EdgeFits(g.nodes, e); }
  }

  /** A run's derivations as a graph: from each value to the steps that consumed it, from each step to its outputs. */
  ghost function Derivations(g: Dag): Graph<Id> {
    map id | id in g.nodes :: set e | e in g.edges && !e.StoppedAt? && e.source == id :: e.target
  }

  lemma NextIsLater(g: Dag, last: map<Iri, Value>, y: Id)
    requires g.Sound(last) && y in g.nodes
    ensures forall z | z in Next(Derivations(g), y) :: Earlier(g.nodes, y, z)
  {
    assert Asked(SOUND);
    forall z | z in Next(Derivations(g), y) ensures Earlier(g.nodes, y, z) {
      var e :| e in g.edges && !e.StoppedAt? && e.source == y && e.target == z;
      assert EdgeFits(g.nodes, e);
    }
  }

  /** However long the run, nothing in its grounding graph derives from itself. */
  lemma GroundingIsAcyclic(g: Dag, last: map<Iri, Value>, x: Id)
    requires g.Sound(last)
    ensures !ReachesBeyond(Derivations(g), x, x)
  {
    var d := Derivations(g);
    if x in g.nodes {
      var later := set id | id in g.nodes && g.nodes[id].minted > g.nodes[x].minted;
      forall y | y in g.nodes && g.nodes[y].minted >= g.nodes[x].minted ensures Next(d, y) <= later { NextIsLater(g, last, y); }
      assert ClosedUnder(d, later);
    }
  }

  /** What a sound graph says of any value: one producer at most, and of any DataState: the index has its latest value. */
  lemma ValuesAreAccountedFor(g: Dag, last: map<Iri, Value>, e: Edge, f: Edge, id: Id)
    requires g.Sound(last)
    ensures e in g.edges && f in g.edges && e.Produces? && f.Produces? && e.target == f.target ==> e == f
    ensures IsValueIn(g.nodes, id) ==> var ds := g.nodes[id].content.datastate;
      && ds in g.index && ds in last && IsValueIn(g.nodes, g.index[ds])
      && g.nodes[g.index[ds]].content == DataStateInstance(ds, last[ds])
      && (id == g.index[ds] || Earlier(g.nodes, id, g.index[ds]))
  {
    assert Asked(SOUND);
    if IsValueIn(g.nodes, id) { assert Current(g.nodes, g.index, last, g.nodes[id].content.datastate); }
  }
}
