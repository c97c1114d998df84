/** The outputs of one invocation, written in order up to one that is refused. */
module GroundingOutputs {
  import opened Identifiers
  import opened Folding
  import opened NodeIds
  import opened Grounding
  import opened GroundingIds

  const WROTE := 3
  const WRITING := 4

  function Firsts(order: seq<Iri>, k: nat): set<Iri>
    requires k <= |order|
  {
    set ds | ds in order[..k]
  }

  /** The outputs a dict hands over, in its order. */
  ghost predicate IsOrderOf(order: seq<Iri>, outputs: map<Iri, Value>) {
    (forall i, j | 0 <= i < j < |order| :: order[i] != order[j]) && forall ds :: ds in order <==> ds in outputs
  }

  /** The id due to the `k`th output is in use neither before nor for one of the outputs before it. */
  ghost predicate Free(g: Dag, name: Naming, ids: set<Iri>, order: seq<Iri>, k: nat)
    requires k < |order|
  {
    && name.Of(g.NewValue(order[k])) !in ids
    && forall j | 0 <= j < k :: name.Of(g.NewValue(order[j])) != name.Of(g.NewValue(order[k]))
  }

  /** The first `written` outputs are written, the one after them, if any, is refused. */
  ghost predicate StopsAt(g: Dag, name: Naming, ids: set<Iri>, order: seq<Iri>, written: nat) {
    && written <= |order|
    && (forall k | 0 <= k < written :: Free(g, name, ids, order, k))
    && (written < |order| ==> !Free(g, name, ids, order, written))
  }

  /** How many outputs have been given a number: those written, and one refused. */
  function Tried(order: seq<Iri>, written: nat): nat
    requires written <= |order|
  {
    if written < |order| then written + 1 else written
  }

  ghost predicate CountedOn(before: map<Iri, nat>, after: map<Iri, nat>, dss: set<Iri>) {
    forall ds :: At(after, ds) == At(before, ds) + if ds in dss then 1 else 0
  }

  /** What writing the outputs `done` leads to. */
  ghost predicate Wrote(
    before: Dag, lastBefore: map<Iri, Value>, cap: Id, outputs: map<Iri, Value>, done: set<Iri>, now: Dag, last: map<Iri, Value>)
  {
    forall key {:trigger Asked(key)} :: Asked(key) && key == WROTE ==>
    && now.Extends(before) && done <= outputs.Keys && last == lastBefore + Restricted(outputs, done)
    && (forall ds :: ds !in done && ds in before.index ==> ds in now.index && now.index[ds] == before.index[ds])
    && (forall ds | ds in done :: ds in now.index && now.index[ds] == before.NewValue(ds) && now.index[ds] !in before.nodes)
    && now.edges == before.edges + ProduceEdges(now.index, cap, done)
    && now.nodes.Keys == before.nodes.Keys + CurrentOf(now.index, done)
    && now.nextCapacity == before.nextCapacity
  }

  lemma WroteNothing(now: Dag, last: map<Iri, Value>, cap: Id, outputs: map<Iri, Value>)
    ensures Wrote(now, last, cap, outputs, {}, now, last)
  {
    assert Restricted(outputs, {}) == map[];
  }

  lemma WroteSays(before: Dag, lastBefore: map<Iri, Value>, cap: Id, outputs: map<Iri, Value>, done: set<Iri>,
                  now: Dag, last: map<Iri, Value>)
    requires Wrote(before, lastBefore, cap, outputs, done, now, last)
    ensures now.Extends(before) && last == lastBefore + Restricted(outputs, done) && now.nextCapacity == before.nextCapacity
    ensures forall ds :: ds !in done && ds in before.index ==> ds in now.index && now.index[ds] == before.index[ds]
    ensures forall ds | ds in done :: ds in now.index && now.index[ds] == before.NewValue(ds) && now.index[ds] !in before.nodes
    ensures now.edges == before.edges + ProduceEdges(now.index, cap, done)
    ensures now.nodes.Keys == before.nodes.Keys + CurrentOf(now.index, done)
  {
    assert Asked(WROTE);
  }

  lemma WroteMore(before: Dag, lastBefore: map<Iri, Value>, cap: Id, outputs: map<Iri, Value>, done: set<Iri>,
                  mid: Dag, lastMid: map<Iri, Value>, ds: Iri, now: Dag, last: map<Iri, Value>)
    requires Wrote(before, lastBefore, cap, outputs, done, mid, lastMid) && ds in outputs && ds !in done
    requires now.Extends(mid) && last == lastMid[ds := outputs[ds]] && now.nextCapacity == mid.nextCapacity
    requires mid.NewValue(ds) == before.NewValue(ds)
    requires now.index == mid.index[ds := mid.NewValue(ds)] && mid.NewValue(ds) !in mid.nodes
    requires now.edges == mid.edges + {Produces(cap, mid.NewValue(ds))}
    requires now.nodes.Keys == mid.nodes.Keys + {mid.NewValue(ds)}
    ensures Wrote(before, lastBefore, cap, outputs, done + {ds}, now, last)
  {
    var id := mid.NewValue(ds);
    WroteSays(before, lastBefore, cap, outputs, done, mid, lastMid);
    LastMore(lastBefore, outputs, done, ds);
    GrowsOn(before, mid, now);
    WroteIndex(before, done, mid, ds, now);
    WroteEdges(before.edges, mid.index, cap, done, ds, id);
    WroteKeys(before.nodes.Keys, mid.index, done, ds, id);
  }

  lemma WroteIndex(before: Dag, done: set<Iri>, mid: Dag, ds: Iri, now: Dag)
    requires mid.Extends(before) && mid.NewValue(ds) == before.NewValue(ds) && mid.NewValue(ds) !in mid.nodes
    requires now.index == mid.index[ds := mid.NewValue(ds)] && ds !in done
    requires forall d :: d !in done && d in before.index ==> d in mid.index && mid.index[d] == before.index[d]
    requires forall d | d in done :: d in mid.index && mid.index[d] == before.NewValue(d) && mid.index[d] !in before.nodes
    ensures forall d :: d !in done + {ds} && d in before.index ==> d in now.index && now.index[d] == before.index[d]
    ensures forall d | d in done + {ds} :: d in now.index && now.index[d] == before.NewValue(d) && now.index[d] !in before.nodes
  {
    assert mid.NewValue(ds) !in before.nodes;
  }

  lemma WroteSkip(before: Dag, lastBefore: map<Iri, Value>, cap: Id, outputs: map<Iri, Value>, done: set<Iri>,
                  mid: Dag, last: map<Iri, Value>, ds: Iri)
    requires Wrote(before, lastBefore, cap, outputs, done, mid, last)
    ensures Wrote(before, lastBefore, cap, outputs, done, mid.SkipValue(ds), last)
  {
    assert Asked(WROTE);
  }

  lemma WroteEdges(edges: set<Edge>, index: map<Iri, Id>, cap: Id, done: set<Iri>, ds: Iri, id: Id)
    requires ds !in done
    ensures edges + ProduceEdges(index, cap, done) + {Produces(cap, id)} == edges + ProduceEdges(index[ds := id], cap, done + {ds})
  {
    ProduceEdgesMore(index, cap, done, ds, id);
    SetsMore(edges, ProduceEdges(index, cap, done), Produces(cap, id));
  }

  lemma WroteKeys(keys: set<Id>, index: map<Iri, Id>, done: set<Iri>, ds: Iri, id: Id)
    requires ds !in done
    ensures keys + CurrentOf(index, done) + {id} == keys + CurrentOf(index[ds := id], done + {ds})
  {
    CurrentOfMore(index, done, ds, id);
    KeysMore(keys, CurrentOf(index, done), id);
  }

  lemma KeysMore(a: set<Id>, b: set<Id>, id: Id)
    ensures a + b + {id} == a + (b + {id})
  {}

  lemma LastMore(last: map<Iri, Value>, outputs: map<Iri, Value>, done: set<Iri>, ds: Iri)
    requires ds in outputs
    ensures (last + Restricted(outputs, done))[ds := outputs[ds]] == last + Restricted(outputs, done + {ds})
  {}

  lemma SetsMore(a: set<Edge>, b: set<Edge>, e: Edge)
    ensures a + b + {e} == a + (b + {e})
  {}

  lemma GrowsOn(a: Dag, b: Dag, c: Dag)
    requires b.Extends(a) && c.Extends(b)
    ensures c.Extends(a)
  {}

  lemma FirstsMore(order: seq<Iri>, k: nat)
    requires k < |order|
    ensures Firsts(order, k + 1) == Firsts(order, k) + {order[k]}
  {
    TakeOneMore(order, k);
  }

  lemma NotYet(order: seq<Iri>, outputs: map<Iri, Value>, k: nat)
    requires IsOrderOf(order, outputs) && k < |order|
    ensures order[k] in outputs && order[k] !in Firsts(order, k)
  {
    assert order[k] in order;
  }

  lemma CountedMore(before: map<Iri, nat>, mid: map<Iri, nat>, dss: set<Iri>, ds: Iri)
    requires CountedOn(before, mid, dss) && ds !in dss
    ensures CountedOn(before, mid[ds := At(mid, ds) + 1], dss + {ds})
  {}

  /** The new nodes are those of the outputs written. */
  lemma NewNodes(before: Dag, lastBefore: map<Iri, Value>, cap: Id, order: seq<Iri>, outputs: map<Iri, Value>, k: nat,
                 mid: Dag, last: map<Iri, Value>)
    requires k <= |order| && Wrote(before, lastBefore, cap, outputs, Firsts(order, k), mid, last)
    ensures forall id :: id in mid.nodes.Keys - before.nodes.Keys <==> exists j :: 0 <= j < k && id == before.NewValue(order[j])
  {
    WroteSays(before, lastBefore, cap, outputs, Firsts(order, k), mid, last);
    forall j | 0 <= j < k
      ensures before.NewValue(order[j]) in mid.nodes && before.NewValue(order[j]) !in before.nodes
    {
      assert order[j] in order[..k];
      assert mid.index[order[j]] in CurrentOf(mid.index, Firsts(order, k));
    }
    forall id | id in mid.nodes.Keys - before.nodes.Keys ensures exists j :: 0 <= j < k && id == before.NewValue(order[j]) {
      var ds :| ds in Firsts(order, k) && ds in mid.index && id == mid.index[ds];
      var j :| 0 <= j < k && order[..k][j] == ds;
      assert order[j] == ds;
    }
  }

  /** The id due to the next output is free for it exactly if it was and no output before has taken it. */
  lemma DueIsFree(before: Dag, lastBefore: map<Iri, Value>, name: Naming, ids: set<Iri>, cap: Id, order: seq<Iri>,
                  outputs: map<Iri, Value>, k: nat, mid: Dag, last: map<Iri, Value>, ids': set<Iri>)
    requires k < |order| && IsOrderOf(order, outputs) && Wrote(before, lastBefore, cap, outputs, Firsts(order, k), mid, last)
    requires Registered(name, before, ids, mid, ids') && CountedOn(before.nextValue, mid.nextValue, Firsts(order, k))
    ensures mid.NewValue(order[k]) == before.NewValue(order[k])
    ensures name.Of(mid.NewValue(order[k])) !in ids' <==> Free(before, name, ids, order, k)
  {
    NotYet(order, outputs, k);
    RegisteredSays(name, before, ids, mid, ids');
    NewNodes(before, lastBefore, cap, order, outputs, k, mid, last);
    var due, more := name.Of(before.NewValue(order[k])), mid.nodes.Keys - before.nodes.Keys;
    if j :| 0 <= j < k && name.Of(before.NewValue(order[j])) == due {
      assert before.NewValue(order[j]) in more;
    }
    if due in name.All(more) {
      var id :| id in more && name.Of(id) == due;
    }
  }

  /** Where the loop over the outputs stands: `k` written, none refused. */
  ghost predicate Writing(before: Dag, lastBefore: map<Iri, Value>, name: Naming, ids: set<Iri>, cap: Id, order: seq<Iri>,
                          outputs: map<Iri, Value>, k: nat, now: Dag, last: map<Iri, Value>, ids': set<Iri>)
  {
    forall key {:trigger Asked(key)} :: Asked(key) && key == WRITING ==>
      && k <= |order| && Wrote(before, lastBefore, cap, outputs, Firsts(order, k), now, last)
      && Registered(name, before, ids, now, ids') && CountedOn(before.nextValue, now.nextValue, Firsts(order, k))
      && forall j | 0 <= j < k :: Free(before, name, ids, order, j)
  }

  lemma WritingStarts(g: Dag, last: map<Iri, Value>, name: Naming, ids: set<Iri>, cap: Id, order: seq<Iri>, outputs: map<Iri, Value>)
    ensures Writing(g, last, name, ids, cap, order, outputs, 0, g, last, ids)
  {
    assert Firsts(order, 0) == {};
    WroteNothing(g, last, cap, outputs);
    RegisteredNothing(name, g, ids);
  }

  lemma WritingMore(before: Dag, lastBefore: map<Iri, Value>, name: Naming, ids: set<Iri>, cap: Id, order: seq<Iri>,
                    outputs: map<Iri, Value>, k: nat, mid: Dag, lastMid: map<Iri, Value>, idsMid: set<Iri>,
                    now: Dag, last: map<Iri, Value>, ids': set<Iri>)
    requires k < |order| && IsOrderOf(order, outputs)
    requires Writing(before, lastBefore, name, ids, cap, order, outputs, k, mid, lastMid, idsMid)
    requires now.Extends(mid) && Registered(name, mid, idsMid, now, ids') && order[k] in outputs
    requires name.Of(mid.NewValue(order[k])) !in idsMid && last == lastMid[order[k] := outputs[order[k]]]
    requires mid.NewValue(order[k]) !in mid.nodes && now.index == mid.index[order[k] := mid.NewValue(order[k])]
    requires now.edges == mid.edges + {Produces(cap, mid.NewValue(order[k]))}
    requires now.nodes.Keys == mid.nodes.Keys + {mid.NewValue(order[k])}
    requires now.nextValue == mid.SkipValue(order[k]).nextValue && now.nextCapacity == mid.nextCapacity
    ensures Writing(before, lastBefore, name, ids, cap, order, outputs, k + 1, now, last, ids')
  {
    assert Asked(WRITING);
    DueIsFree(before, lastBefore, name, ids, cap, order, outputs, k, mid, lastMid, idsMid);
    NotYet(order, outputs, k);
    FirstsMore(order, k);
    CountedMore(before.nextValue, mid.nextValue, Firsts(order, k), order[k]);
    RegisteredOn(name, before, ids, mid, idsMid, now, ids');
    WroteMore(before, lastBefore, cap, outputs, Firsts(order, k), mid, lastMid, order[k], now, last);
  }

  lemma WritingStops(before: Dag, lastBefore: map<Iri, Value>, name: Naming, ids: set<Iri>, cap: Id, order: seq<Iri>,
                     outputs: map<Iri, Value>, k: nat, mid: Dag, last: map<Iri, Value>, idsMid: set<Iri>, now: Dag, ids': set<Iri>)
    requires k < |order| && IsOrderOf(order, outputs)
    requires Writing(before, lastBefore, name, ids, cap, order, outputs, k, mid, last, idsMid)
    requires Registered(name, mid, idsMid, now, ids')
    requires name.Of(mid.NewValue(order[k])) in idsMid && now == mid.SkipValue(order[k])
    ensures Registered(name, before, ids, now, ids') && StopsAt(before, name, ids, order, k) && now.Extends(before)
    ensures Wrote(before, lastBefore, cap, outputs, Firsts(order, k), now, last)
    ensures CountedOn(before.nextValue, now.nextValue, Firsts(order, k + 1))
  {
    assert Asked(WRITING);
    DueIsFree(before, lastBefore, name, ids, cap, order, outputs, k, mid, last, idsMid);
    NotYet(order, outputs, k);
    FirstsMore(order, k);
    CountedMore(before.nextValue, mid.nextValue, Firsts(order, k), order[k]);
    RegisteredOn(name, before, ids, mid, idsMid, now, ids');
    WroteSkip(before, lastBefore, cap, outputs, Firsts(order, k), mid, last, order[k]);
    WroteSays(before, lastBefore, cap, outputs, Firsts(order, k), now, last);
  }

  lemma WritingEnds(before: Dag, lastBefore: map<Iri, Value>, name: Naming, ids: set<Iri>, cap: Id, order: seq<Iri>,
                    outputs: map<Iri, Value>, now: Dag, last: map<Iri, Value>, ids': set<Iri>)
    requires Writing(before, lastBefore, name, ids, cap, order, outputs, |order|, now, last, ids')
    ensures Registered(name, before, ids, now, ids') && StopsAt(before, name, ids, order, |order|) && now.Extends(before)
    ensures Wrote(before, lastBefore, cap, outputs, Firsts(order, |order|), now, last)
    ensures CountedOn(before.nextValue, now.nextValue, Firsts(order, |order|))
  {
    assert Asked(WRITING);
    WroteSays(before, lastBefore, cap, outputs, Firsts(order, |order|), now, last);
  }

  /** No value has the printed id of a capacity. */
  lemma FreeDespite(g: Dag, g': Dag, name: Naming, ids: set<Iri>, cap: Id, order: seq<Iri>, written: nat)
    requires cap.CapacityId? && g'.nextValue == g.nextValue && StopsAt(g', name, ids + {name.Of(cap)}, order, written)
    ensures StopsAt(g, name, ids, order, written)
  {
    forall k | 0 <= k < |order| ensures Free(g', name, ids + {name.Of(cap)}, order, k) <==> Free(g, name, ids, order, k) {
      PrintedAlike(name.request, name.run, g.NewValue(order[k]), cap);
    }
  }
}
