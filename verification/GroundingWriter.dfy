/** The writer of one run's grounding graph, in a metagraph whose id registry it shares. */
module GroundingWriters {
  import opened Identifiers
  import opened Identities
  import opened NodeIds
  import opened Grounding
  import opened GroundingIds
  import opened GroundingOutputs

  /** The run's writer. */
  class Writer {
    const identity: IdentityRegistry
    const name: Naming
    var dag: Dag
    ghost var last: map<Iri, Value>

    constructor (registry: IdentityRegistry, naming: Naming)
      ensures Valid() && dag == EMPTY && last == map[] && identity == registry && name == naming
    {
      identity, name, dag, last := registry, naming, EMPTY, map[];
    }

    ghost predicate Valid()
      reads this, identity
    {
      dag.Sound(last) && Filed(dag, name, identity.ids)
    }

    /** `_mint_datastate`, which is all that `seed` does: a value under the next number of its DataState, now the current one,
        or refused because its printed id is in use; the number is used up either way. */
    method Seed(ds: Iri, value: Value) returns (ok: bool)
      requires Valid()
      modifies this, identity
      ensures Valid() && dag.Extends(old(dag)) && Registered(name, old(dag), old(identity.ids), dag, identity.ids)
      ensures ok <==> name.Of(old(dag).NewValue(ds)) !in old(identity.ids)
      ensures ok ==> old(dag).NewValue(ds) !in old(dag).nodes && dag == old(dag).MintValue(ds, value) && last == old(last)[ds := value]
      ensures !ok ==> dag == old(dag).SkipValue(ds) && last == old(last)
    {
      var id := dag.NewValue(ds);
      dag.MintValueKeeps(ds, value, last);
      dag.SkipKeeps(ds, last);
      ok := identity.Register(name.Of(id));
      if ok {
        ValueFiled(dag, name, old(identity.ids), ds, value);
        dag, last := dag.MintValue(ds, value), last[ds := value];
      } else {
        ValueSkipped(dag, name, old(identity.ids), ds);
        dag := dag.SkipValue(ds);
      }
    }

    /** `root`: the raw task; refused when its printed id is in use. */
    method Root(ds: Iri, value: Value) returns (ok: bool)
      requires Valid()
      modifies this, identity
      ensures Valid() && dag.Extends(old(dag)) && Registered(name, old(dag), old(identity.ids), dag, identity.ids)
      ensures ok <==> name.Of(RootId(ds)) !in old(identity.ids)
      ensures ok ==> RootId(ds) !in old(dag).nodes && dag == old(dag).MintRoot(ds, value) && last == old(last)[ds := value]
      ensures !ok ==> dag == old(dag) && last == old(last)
    {
      ok := identity.Register(name.Of(RootId(ds)));
      if ok {
        RootFiled(dag, name, old(identity.ids), ds, value);
        dag.RootKeeps(ds, value, last);
        dag, last := dag.MintRoot(ds, value), last[ds := value];
      } else {
        NothingMinted(dag, name, old(identity.ids), name.Of(RootId(ds)));
      }
    }

    /** The terminal node or the manifest, one of each for a run. */
    method Mark(id: Id, content: Content) returns (ok: bool)
      requires Valid() && (id == StopId || id == ManifestId) && !content.DataStateInstance?
      modifies this, identity
      ensures Valid() && dag.Extends(old(dag)) && Registered(name, old(dag), old(identity.ids), dag, identity.ids)
      ensures ok <==> name.Of(id) !in old(identity.ids)
      ensures last == old(last)
      ensures ok ==> id !in old(dag).nodes && dag == old(dag).MintMark(id, content)
      ensures !ok ==> dag == old(dag)
    {
      ok := identity.Register(name.Of(id));
      if ok {
        MarkFiled(dag, name, old(identity.ids), id, content);
        dag.MintMarkKeeps(id, content, last);
        dag := dag.MintMark(id, content);
      } else {
        NothingMinted(dag, name, old(identity.ids), name.Of(id));
      }
    }

    method Manifest() returns (ok: bool)
      requires Valid()
      modifies this, identity
      ensures Valid() && dag.Extends(old(dag)) && Registered(name, old(dag), old(identity.ids), dag, identity.ids)
      ensures last == old(last) && dag.edges == old(dag).edges && dag.index == old(dag).index
      ensures ok <==> name.Of(ManifestId) !in old(identity.ids)
      ensures dag.nodes.Keys == old(dag).nodes.Keys + if ok then {ManifestId} else {}
      ensures !ok ==> dag == old(dag)
    {
      ok := Mark(ManifestId, RunManifest);
    }

    /** A capacity instance with the CONSUMES edges of the inputs known, from their current instances; or, its printed id
        being in use, nothing but its number used up. */
    method Invoke(capacity: Iri, inputs: seq<Iri>) returns (ok: bool)
      requires Valid()
      modifies this, identity
      ensures Valid() && dag.Extends(old(dag)) && Registered(name, old(dag), old(identity.ids), dag, identity.ids)
      ensures last == old(last) && dag.index == old(dag).index && dag.nextValue == old(dag).nextValue
      ensures dag.nextCapacity == old(dag).SkipCapacity(capacity).nextCapacity
      ensures ok <==> name.Of(old(dag).NewCapacity(capacity)) !in old(identity.ids)
      ensures ok ==> var id := old(dag).NewCapacity(capacity);
        && id !in old(dag).nodes && id in dag.nodes && dag.nodes[id].content == CapacityInstance(capacity)
        && dag.nodes.Keys == old(dag).nodes.Keys + {id}
        && dag.edges == old(dag).edges + ConsumeEdges(old(dag).index, id, inputs)
        && identity.ids == old(identity.ids) + {name.Of(id)}
      ensures !ok ==> dag == old(dag).SkipCapacity(capacity)
    {
      var id := dag.NewCapacity(capacity);
      dag.MintCapacityKeeps(capacity, last);
      dag.SkipKeeps(capacity, last);
      ok := identity.Register(name.Of(id));
      if ok {
        dag.CurrentIsEarlier(capacity, last);
        var minted := dag.MintCapacity(capacity);
        CapacityFiled(dag, name, old(identity.ids), capacity);
        minted.ConsumeKeeps(id, inputs, last);
        var consumed := minted.edges + ConsumeEdges(minted.index, id, inputs);
        FiledEdges(minted, name, identity.ids, consumed);
        RegisteredEdges(name, dag, old(identity.ids), minted, identity.ids, consumed);
        dag := minted.(edges := consumed);
      } else {
        CapacitySkipped(dag, name, old(identity.ids), capacity);
        dag := dag.SkipCapacity(capacity);
      }
    }

    /** `record`: one invocation; every output a new value produced by it and by nothing else, and current from now on. The
        capacity's id being in use, nothing is recorded; an output's, that output and those after it are not, while the
        capacity and the outputs before it stay. */
    method Record(capacity: Iri, inputs: seq<Iri>, order: seq<Iri>, outputs: map<Iri, Value>) returns (ok: bool, ghost written: nat)
      requires Valid() && IsOrderOf(order, outputs)
      modifies this, identity
      ensures Valid() && dag.Extends(old(dag)) && Registered(name, old(dag), old(identity.ids), dag, identity.ids)
      ensures name.Of(old(dag).NewCapacity(capacity)) in old(identity.ids) ==>
        !ok && dag == old(dag).SkipCapacity(capacity) && last == old(last)
      ensures name.Of(old(dag).NewCapacity(capacity)) !in old(identity.ids) ==>
        && StopsAt(old(dag), name, old(identity.ids), order, written) && (ok <==> written == |order|)
        && last == old(last) + Restricted(outputs, Firsts(order, written))
      ensures name.Of(old(dag).NewCapacity(capacity)) !in old(identity.ids) ==>
        var id, done := old(dag).NewCapacity(capacity), Firsts(order, written);
        && id !in old(dag).nodes && id in dag.nodes && dag.nodes[id].content == CapacityInstance(capacity)
        && (forall ds :: ds !in done && ds in old(dag).index ==> ds in dag.index && dag.index[ds] == old(dag).index[ds])
        && (forall ds | ds in done :: ds in dag.index && dag.index[ds] == old(dag).NewValue(ds) && dag.index[ds] !in old(dag).nodes)
        && dag.edges == old(dag).edges + ConsumeEdges(old(dag).index, id, inputs) + ProduceEdges(dag.index, id, done)
        && ConsumesExactly(old(dag), id, inputs, dag.edges) && ProducesExactly(old(dag), id, done, dag.index, dag.edges)
        && dag.nodes.Keys == old(dag).nodes.Keys + {id} + CurrentOf(dag.index, done)
        && CountedOn(old(dag).nextValue, dag.nextValue, Firsts(order, Tried(order, written)))
        && dag.nextCapacity == old(dag).SkipCapacity(capacity).nextCapacity
    {
      var id := dag.NewCapacity(capacity);
      ok := Invoke(capacity, inputs);
      if !ok { return false, 0; }
      ghost var mid, ids := dag, identity.ids;
      ok, written := WriteOutputs(id, order, outputs);
      WroteSays(mid, old(last), id, outputs, Firsts(order, written), dag, last);
      FreeDespite(old(dag), mid, name, old(identity.ids), id, order, written);
      RegisteredOn(name, old(dag), old(identity.ids), mid, ids, dag, identity.ids);
      EdgesSay(old(dag), old(last), id, inputs, Firsts(order, written), dag.index, {}, dag.edges);
    }

    /** The outputs of an invocation, one after the other, up to one that is refused. */
    method WriteOutputs(cap: Id, order: seq<Iri>, outputs: map<Iri, Value>) returns (ok: bool, ghost written: nat)
      requires Valid() && IsCapacityIn(dag.nodes, cap) && IsOrderOf(order, outputs)
      modifies this, identity
      ensures Valid() && dag.Extends(old(dag)) && Registered(name, old(dag), old(identity.ids), dag, identity.ids)
      ensures StopsAt(old(dag), name, old(identity.ids), order, written) && (ok <==> written == |order|)
      ensures Wrote(old(dag), old(last), cap, outputs, Firsts(order, written), dag, last)
      ensures CountedOn(old(dag).nextValue, dag.nextValue, Firsts(order, Tried(order, written)))
    {
      ghost var before, lastBefore, ids := dag, last, identity.ids;
      WritingStarts(dag, last, name, identity.ids, cap, order, outputs);
      var k := 0;
      while k < |order|
        invariant k <= |order| && Valid() && IsCapacityIn(dag.nodes, cap)
        invariant Writing(before, lastBefore, name, ids, cap, order, outputs, k, dag, last, identity.ids)
      {
        ghost var mid, lastMid, idsMid := dag, last, identity.ids;
        NotYet(order, outputs, k);
        ok := Output(cap, order[k], outputs[order[k]]);
        if !ok {
          WritingStops(before, lastBefore, name, ids, cap, order, outputs, k, mid, lastMid, idsMid, dag, identity.ids);
          return false, k;
        }
        WritingMore(before, lastBefore, name, ids, cap, order, outputs, k, mid, lastMid, idsMid, dag, last, identity.ids);
        k := k + 1;
      }
      WritingEnds(before, lastBefore, name, ids, cap, order, outputs, dag, last, identity.ids);
      return true, k;
    }

    /** One output of an invocation. */
    method Output(cap: Id, ds: Iri, value: Value) returns (ok: bool)
      requires Valid() && IsCapacityIn(dag.nodes, cap)
      modifies this, identity
      ensures Valid() && dag.Extends(old(dag)) && Registered(name, old(dag), old(identity.ids), dag, identity.ids)
      ensures ok <==> name.Of(old(dag).NewValue(ds)) !in old(identity.ids)
      ensures !ok ==> dag == old(dag).SkipValue(ds) && last == old(last)
      ensures ok ==> var id := old(dag).NewValue(ds);
        && last == old(last)[ds := value] && id !in old(dag).nodes && dag.index == old(dag).index[ds := id]
        && dag.edges == old(dag).edges + {Produces(cap, id)} && dag.nodes.Keys == old(dag).nodes.Keys + {id}
        && dag.nextValue == old(dag).SkipValue(ds).nextValue && dag.nextCapacity == old(dag).nextCapacity
    {
      dag.MintValueKeeps(ds, value, last);
      dag.ProducedAreThere(last);
      var target := dag.NewValue(ds);
      ok := Seed(ds, value);
      if ok {
        dag.ProduceKeeps(cap, target, last);
        FiledEdges(dag, name, identity.ids, dag.edges + {Produces(cap, target)});
        RegisteredEdges(name, old(dag), old(identity.ids), dag, identity.ids, dag.edges + {Produces(cap, target)});
        dag := dag.(edges := dag.edges + {Produces(cap, target)});
      }
    }

    /** `record_stopped`: the invocation is real and stays; a run that has stopped already cannot stop again. */
    method RecordStopped(capacity: Iri, inputs: seq<Iri>, reason: Reason) returns (ok: bool)
      requires Valid()
      modifies this, identity
      ensures Valid() && dag.Extends(old(dag)) && Registered(name, old(dag), old(identity.ids), dag, identity.ids)
      ensures last == old(last) && dag.index == old(dag).index && dag.nextValue == old(dag).nextValue
      ensures var id := old(dag).NewCapacity(capacity);
        ok <==> Dispatched(reason) && name.Of(id) !in old(identity.ids) && name.Of(StopId) !in old(identity.ids)
      ensures !Dispatched(reason) ==> dag == old(dag)
      ensures Dispatched(reason) && name.Of(old(dag).NewCapacity(capacity)) in old(identity.ids) ==> dag == old(dag).SkipCapacity(capacity)
      ensures Dispatched(reason) && name.Of(old(dag).NewCapacity(capacity)) !in old(identity.ids) ==>
        var id := old(dag).NewCapacity(capacity);
        && dag.edges == old(dag).edges + ConsumeEdges(old(dag).index, id, inputs) + (if ok then {StoppedAt(StopId, id)} else {})
        && ConsumesExactly(old(dag), id, inputs, dag.edges) && ProducesExactly(old(dag), id, {}, dag.index, dag.edges)
        && dag.nodes.Keys == old(dag).nodes.Keys + {id} + (if ok then {StopId} else {})
        && id !in old(dag).nodes && dag.nodes[id].content == CapacityInstance(capacity)
        && dag.nextCapacity == old(dag).SkipCapacity(capacity).nextCapacity
      ensures ok ==> StopId in dag.nodes && dag.nodes[StopId].content == RunStopped(reason)
    {
      if !Dispatched(reason) {
        RegisteredNothing(name, dag, identity.ids);
        return false;
      }
      var id := dag.NewCapacity(capacity);
      ok := Invoke(capacity, inputs);
      if !ok { return; }
      PrintedAlike(name.request, name.run, id, StopId);
      ghost var mid, ids := dag, identity.ids;
      ok := RecordAlone(reason);
      RegisteredOn(name, old(dag), old(identity.ids), mid, ids, dag, identity.ids);
      if ok { PointStopAt(id, old(dag), old(identity.ids)); }
      EdgesSay(old(dag), old(last), id, inputs, {}, dag.index, if ok then {StoppedAt(StopId, id)} else {}, dag.edges);
    }

    method PointStopAt(cap: Id, ghost before: Dag, ghost ids: set<Iri>)
      requires Valid() && IsCapacityIn(dag.nodes, cap) && StopId in dag.nodes && Registered(name, before, ids, dag, identity.ids)
      modifies this`dag
      ensures Valid() && dag == old(dag).(edges := old(dag).edges + {StoppedAt(StopId, cap)})
      ensures Registered(name, before, ids, dag, identity.ids)
    {
      dag.StopKeeps(cap, last);
      FiledEdges(dag, name, identity.ids, dag.edges + {StoppedAt(StopId, cap)});
      RegisteredEdges(name, before, ids, dag, identity.ids, dag.edges + {StoppedAt(StopId, cap)});
      dag := dag.(edges := dag.edges + {StoppedAt(StopId, cap)});
    }

    /** `record_cancelled` and its like: the terminal node alone, no capacity having run. */
    method RecordAlone(reason: Reason) returns (ok: bool)
      requires Valid()
      modifies this, identity
      ensures Valid() && dag.Extends(old(dag)) && Registered(name, old(dag), old(identity.ids), dag, identity.ids)
      ensures last == old(last) && dag.index == old(dag).index && dag.edges == old(dag).edges
      ensures dag.nextValue == old(dag).nextValue && dag.nextCapacity == old(dag).nextCapacity
      ensures (ok <==> name.Of(StopId) !in old(identity.ids)) && (!ok ==> dag == old(dag))
      ensures ok ==> dag.nodes.Keys == old(dag).nodes.Keys + {StopId} && dag.nodes[StopId].content == RunStopped(reason)
    {
      ok := Mark(StopId, RunStopped(reason));
    }
  }
}
