/** Any number of runs grounded in one metagraph: no id stands for two nodes, and what is refused for it. */
module GroundingRuns {
  import opened Identifiers
  import opened Identities
  import opened NodeIds
  import opened Grounding
  import opened GroundingIds
  import opened GroundingOutputs
  import opened GroundingWriters
  import RunRefs

  // ---- over any run ----

  /** What a writer holds. */
  datatype Held = Held(name: Naming, dag: Dag, last: map<Iri, Value>)
  {
    ghost predicate Fits(ids: set<Iri>) { dag.Sound(last) && Filed(dag, name, ids) }

    function Ids(): set<Iri> { name.All(dag.nodes.Keys) }
  }

  /** Each writer is sound, and no two have an id in common. */
  ghost predicate Together(hs: seq<Held>, ids: set<Iri>) {
    && (forall i | 0 <= i < |hs| :: hs[i].Fits(ids))
    && (forall i, j | 0 <= i < j < |hs| :: hs[i].Ids() !! hs[j].Ids())
  }

  lemma IdsAreRegistered(h: Held, ids: set<Iri>)
    requires h.Fits(ids)
    ensures h.Ids() <= ids
  {
    forall id | id in h.dag.nodes ensures h.name.Of(id) in ids { NodesAreFiled(h.dag, h.name, ids, id); }
  }

  /** What one writer adds keeps clear of all the others. */
  lemma StaysApart(h: Held, ids: set<Iri>, h': Held, ids': set<Iri>, other: Held)
    requires h'.name == h.name && Registered(h.name, h.dag, ids, h'.dag, ids') && other.Fits(ids) && h.Ids() !! other.Ids()
    ensures other.Fits(ids') && h'.Ids() !! other.Ids()
  {
    RegisteredSays(h.name, h.dag, ids, h'.dag, ids');
    FiledAmongMore(other.dag, other.name, ids, ids');
    IdsAreRegistered(other, ids);
    var more := h'.dag.nodes.Keys - h.dag.nodes.Keys;
    assert h'.dag.nodes.Keys == h.dag.nodes.Keys + more;
    AllOfBoth(h.name, h.dag.nodes.Keys, more);
  }

  lemma OneMoreCall(hs: seq<Held>, ids: set<Iri>, i: nat, h: Held, ids': set<Iri>)
    requires i < |hs| && Together(hs, ids) && h.Fits(ids')
    requires h.name == hs[i].name && Registered(h.name, hs[i].dag, ids, h.dag, ids')
    ensures Together(hs[i := h], ids')
  {
    forall j | 0 <= j < |hs| && j != i ensures hs[j].Fits(ids') && h.Ids() !! hs[j].Ids() {
      StaysApart(hs[i], ids, h, ids', hs[j]);
    }
  }

  /** A new writer may join at any time, under any name, one already taken included. */
  lemma NewWriterJoins(hs: seq<Held>, ids: set<Iri>, name: Naming)
    requires Together(hs, ids)
    ensures Together(hs + [Held(name, EMPTY, map[])], ids)
  {
    NewWriterFits(name, ids);
  }

  lemma NewWriterFits(name: Naming, ids: set<Iri>)
    ensures Held(name, EMPTY, map[]).Fits(ids) && Held(name, EMPTY, map[]).Ids() == {}
  {}

  /** Equal ids are one writer's id of one node. */
  lemma NoIdTwice(hs: seq<Held>, ids: set<Iri>, i: nat, j: nat, a: Id, b: Id)
    requires Together(hs, ids) && i < |hs| && j < |hs| && a in hs[i].dag.nodes && b in hs[j].dag.nodes
    requires hs[i].name.Of(a) == hs[j].name.Of(b)
    ensures i == j && a == b
  {
    assert hs[i].name.Of(a) in hs[i].Ids() && hs[j].name.Of(b) in hs[j].Ids();
    if i == j { FiledApart(hs[i].dag, hs[i].name, ids, a, b); }
  }

  /** A call on a run's writer. */
  datatype Call =
    | SeedCall(datastate: Iri, value: Value)
    | RootCall(datastate: Iri, value: Value)
    | ManifestCall
    | RecordCall(capacity: Iri, inputs: seq<Iri>, order: seq<Iri>, outputs: map<Iri, Value>)
    | StoppedCall(capacity: Iri, inputs: seq<Iri>, reason: Reason)
    | AloneCall(reason: Reason)
  {
    ghost predicate Proper() { RecordCall? ==> IsOrderOf(order, outputs) }
  }

  method Do(w: Writer, call: Call) returns (ok: bool)
    requires w.Valid() && call.Proper()
    modifies w, w.identity
    ensures w.Valid() && w.dag.Extends(old(w.dag)) && Registered(w.name, old(w.dag), old(w.identity.ids), w.dag, w.identity.ids)
  {
    match call {
      case SeedCall(ds, value) => ok := w.Seed(ds, value);
      case RootCall(ds, value) => ok := w.Root(ds, value);
      case ManifestCall => ok := w.Manifest();
      case RecordCall(capacity, inputs, order, outputs) => ghost var written; ok, written := w.Record(capacity, inputs, order, outputs);
      case StoppedCall(capacity, inputs, reason) => ok := w.RecordStopped(capacity, inputs, reason);
      case AloneCall(reason) => ok := w.RecordAlone(reason);
    }
  }

  ghost function Holds(w: Writer): Held
    reads w
  {
    Held(w.name, w.dag, w.last)
  }

  ghost function AllHold(ws: seq<Writer>): (hs: seq<Held>)
    reads ws
    ensures |hs| == |ws| && forall i | 0 <= i < |ws| :: hs[i] == Holds(ws[i])
  {
    seq(|ws|, i requires 0 <= i < |ws| reads ws => Holds(ws[i]))
  }

  /** The runs of a metagraph, each with its writer. */
  ghost predicate Share(registry: IdentityRegistry, ws: seq<Writer>)
    reads registry, ws
  {
    && (forall i | 0 <= i < |ws| :: ws[i].identity == registry)
    && (forall i, j | 0 <= i < j < |ws| :: ws[i] != ws[j])
    && Together(AllHold(ws), registry.ids)
  }

  /** Whatever the runs record, in whatever order and under whatever names, no id is ever two nodes'. */
  method Perform(registry: IdentityRegistry, ws: seq<Writer>, calls: seq<(nat, Call)>)
    requires Share(registry, ws) && forall k | 0 <= k < |calls| :: calls[k].0 < |ws| && calls[k].1.Proper()
    modifies registry, ws
    ensures Share(registry, ws)
    ensures forall i, j, a, b | 0 <= i < |ws| && 0 <= j < |ws| && a in ws[i].dag.nodes && b in ws[j].dag.nodes ::
      ws[i].name.Of(a) == ws[j].name.Of(b) ==> i == j && a == b
  {
    for k := 0 to |calls|
      invariant Share(registry, ws)
    {
      var i := calls[k].0;
      ghost var hs, ids := AllHold(ws), registry.ids;
      assert hs[i].Fits(ids);
      var ok := Do(ws[i], calls[k].1);
      OneMoreCall(hs, ids, i, Holds(ws[i]), registry.ids);
      assert AllHold(ws) == hs[i := Holds(ws[i])];
    }
    ghost var hs := AllHold(ws);
    forall i, j, a, b | 0 <= i < |ws| && 0 <= j < |ws| && a in ws[i].dag.nodes && b in ws[j].dag.nodes && ws[i].name.Of(a) == ws[j].name.Of(b)
      ensures i == j && a == b
    {
      NoIdTwice(hs, registry.ids, i, j, a, b);
    }
  }

  // ---- what is refused ----

  /** Ids in use for anything but this writer's nodes: those of other runs, and of an earlier writer of the same run. */
  ghost function Elsewhere(g: Dag, name: Naming, ids: set<Iri>): set<Iri> { ids - name.All(g.nodes.Keys) }

  lemma InUse(g: Dag, name: Naming, ids: set<Iri>, id: Id)
    requires Filed(g, name, ids)
    ensures name.Of(id) in ids <==> (exists o :: o in g.nodes && Alike(o, id)) || name.Of(id) in Elsewhere(g, name, ids)
  {
    if o :| o in g.nodes && Alike(o, id) {
      PrintedAlike(name.request, name.run, o, id);
      NodesAreFiled(g, name, ids, o);
    }
    if name.Of(id) in name.All(g.nodes.Keys) {
      var o :| o in g.nodes && name.Of(o) == name.Of(id);
      PrintedAlike(name.request, name.run, o, id);
    }
  }

  /** A value is refused exactly when its DataState has been given more numbers under its other name than under this one,
      or when what is in use elsewhere has its id. */
  lemma ValueRefused(g: Dag, last: map<Iri, Value>, name: Naming, ids: set<Iri>, ds: Iri)
    requires g.Sound(last) && Filed(g, name, ids)
    ensures name.Of(g.NewValue(ds)) in ids <==>
      || (exists e :: SameName(ds, e, DATASTATE) && At(g.nextValue, ds) < At(g.nextValue, e))
      || name.Of(g.NewValue(ds)) in Elsewhere(g, name, ids)
  {
    InUse(g, name, ids, g.NewValue(ds));
    if e :| SameName(ds, e, DATASTATE) && At(g.nextValue, ds) < At(g.nextValue, e) {
      NumbersAreFiled(g, name, ids, e, e, At(g.nextValue, ds));
      PrintedAlike(name.request, name.run, ValueId(e, At(g.nextValue, ds)), g.NewValue(ds));
    }
    if o :| o in g.nodes && Alike(o, g.NewValue(ds)) {
      NodesAreCounted(g, last, o);
      assert SameName(ds, o.datastate, DATASTATE);
    }
  }

  /** And a capacity's invocation likewise. */
  lemma CapacityRefused(g: Dag, last: map<Iri, Value>, name: Naming, ids: set<Iri>, c: Iri)
    requires g.Sound(last) && Filed(g, name, ids)
    ensures name.Of(g.NewCapacity(c)) in ids <==>
      || (exists e :: SameName(c, e, CAPACITY) && At(g.nextCapacity, c) < At(g.nextCapacity, e))
      || name.Of(g.NewCapacity(c)) in Elsewhere(g, name, ids)
  {
    InUse(g, name, ids, g.NewCapacity(c));
    if e :| SameName(c, e, CAPACITY) && At(g.nextCapacity, c) < At(g.nextCapacity, e) {
      NumbersAreFiled(g, name, ids, e, e, At(g.nextCapacity, c));
      PrintedAlike(name.request, name.run, CapacityId(e, At(g.nextCapacity, c)), g.NewCapacity(c));
    }
    if o :| o in g.nodes && Alike(o, g.NewCapacity(c)) {
      NodesAreCounted(g, last, o);
      assert SameName(c, o.capacity, CAPACITY);
    }
  }

  /** A root is refused exactly when there is one of the raw task under either name, or elsewhere. */
  lemma RootRefused(g: Dag, name: Naming, ids: set<Iri>, ds: Iri)
    requires Filed(g, name, ids)
    ensures name.Of(RootId(ds)) in ids <==>
      (exists e :: RootId(e) in g.nodes && SameName(e, ds, DATASTATE)) || name.Of(RootId(ds)) in Elsewhere(g, name, ids)
  {
    InUse(g, name, ids, RootId(ds));
    if e :| RootId(e) in g.nodes && SameName(e, ds, DATASTATE) { assert Alike(RootId(e), RootId(ds)); }
    if o :| o in g.nodes && Alike(o, RootId(ds)) { assert RootId(o.datastate) in g.nodes; }
  }

  /** The terminal node and the manifest exactly when there is one. */
  lemma MarkRefused(g: Dag, name: Naming, ids: set<Iri>, id: Id)
    requires Filed(g, name, ids) && (id == StopId || id == ManifestId)
    ensures name.Of(id) in ids <==> id in g.nodes || name.Of(id) in Elsewhere(g, name, ids)
  {
    InUse(g, name, ids, id);
    if id in g.nodes { assert Alike(id, id); }
  }

  /** An output is refused exactly when it would be as a value by itself, or an output before it is the same DataState under
      its other name with as many numbers given out. */
  lemma OutputRefused(g: Dag, name: Naming, ids: set<Iri>, order: seq<Iri>, k: nat)
    requires k < |order|
    ensures Free(g, name, ids, order, k) <==>
      && name.Of(g.NewValue(order[k])) !in ids
      && forall j | 0 <= j < k :: !(SameName(order[j], order[k], DATASTATE) && At(g.nextValue, order[j]) == At(g.nextValue, order[k]))
  {
    forall j | 0 <= j < k
      ensures name.Of(g.NewValue(order[j])) == name.Of(g.NewValue(order[k])) <==>
        SameName(order[j], order[k], DATASTATE) && At(g.nextValue, order[j]) == At(g.nextValue, order[k])
    {
      PrintedAlike(name.request, name.run, g.NewValue(order[j]), g.NewValue(order[k]));
    }
  }

  /** Where each DataState goes by one name, no value is refused but for what is in use elsewhere. */
  lemma OneNameIsTaken(g: Dag, last: map<Iri, Value>, name: Naming, ids: set<Iri>, ds: Iri)
    requires g.Sound(last) && Filed(g, name, ids) && OneNameEach(g.nextValue.Keys + {ds}, DATASTATE)
    ensures name.Of(g.NewValue(ds)) in ids <==> name.Of(g.NewValue(ds)) in Elsewhere(g, name, ids)
  {
    ValueRefused(g, last, name, ids, ds);
    if e :| SameName(ds, e, DATASTATE) && At(g.nextValue, ds) < At(g.nextValue, e) {
      SameNameExactly(ds.text, e.text, DATASTATE);
      assert ds == e;
    }
  }

  /** A run that seeds a DataState by its bare name and then by its full one: the second seed is refused. The number is used
      up all the same, and a third goes through. */
  method SecondNameRefused(request: string, run: string, name: string, value: Value) returns (first: bool, second: bool, third: bool)
    requires !RunRefs.StartsWith(name, DATASTATE)
    ensures first && !second && third
  {
    var registry := new IdentityRegistry();
    var w := new Writer(registry, Naming(request, run));
    var bare, full := Iri(name), Iri(DATASTATE + name);
    RunRefs.PrefixComesOff(DATASTATE, name);
    PrintedAlike(request, run, ValueId(bare, 0), ValueId(full, 0));
    PrintedAlike(request, run, ValueId(bare, 0), ValueId(full, 1));
    ghost var none := w.dag;
    first := w.Seed(bare, value);
    RegisteredSays(w.name, none, {}, w.dag, registry.ids);
    ghost var one, ids := w.dag, registry.ids;
    assert one.nodes.Keys - none.nodes.Keys == {ValueId(bare, 0)};
    second := w.Seed(full, value);
    ghost var two := w.dag;
    RegisteredSays(w.name, one, ids, two, registry.ids);
    assert two.nodes.Keys - one.nodes.Keys == {};
    third := w.Seed(full, value);
  }
}
