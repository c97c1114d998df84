/** What a run's writer has registered: a printed id for each node, no two the same. */
module GroundingIds {
  import opened Identifiers
  import opened Folding
  import opened NodeIds
  import opened Grounding

  const FILED := 1
  const REGISTERED := 2

  /** Each node is registered under a printed id of its own, and so is every number given out. */
  ghost predicate Filed(g: Dag, name: Naming, ids: set<Iri>) {
    forall key {:trigger Asked(key)} :: Asked(key) && key == FILED ==>
      && (forall id | id in g.nodes :: name.Of(id) in ids)
      && (forall a, b | a in g.nodes && b in g.nodes && name.Of(a) == name.Of(b) :: a == b)
      && (forall d, n: nat | n < At(g.nextValue, d) :: name.Of(ValueId(d, n)) in ids)
      && (forall c, n: nat | n < At(g.nextCapacity, c) :: name.Of(CapacityId(c, n)) in ids)
  }

  /** Newly registered are the ids of the new nodes, and none of them was in use. */
  ghost predicate Registered(name: Naming, before: Dag, ids: set<Iri>, after: Dag, ids': set<Iri>) {
    forall key {:trigger Asked(key)} :: Asked(key) && key == REGISTERED ==>
      && before.nodes.Keys <= after.nodes.Keys
      && ids' == ids + name.All(after.nodes.Keys - before.nodes.Keys)
      && name.All(after.nodes.Keys - before.nodes.Keys) !! ids
  }

  lemma RegisteredSays(name: Naming, before: Dag, ids: set<Iri>, after: Dag, ids': set<Iri>)
    requires Registered(name, before, ids, after, ids')
    ensures before.nodes.Keys <= after.nodes.Keys
    ensures ids' == ids + name.All(after.nodes.Keys - before.nodes.Keys)
    ensures name.All(after.nodes.Keys - before.nodes.Keys) !! ids
  {
    assert Asked(REGISTERED);
  }

  /** One id at most is given out. */
  ghost predicate GivesOut(g: Dag, g': Dag, id: Id) {
    && (forall d, n: nat | n < At(g'.nextValue, d) :: n < At(g.nextValue, d) || id == ValueId(d, n))
    && (forall c, n: nat | n < At(g'.nextCapacity, c) :: n < At(g.nextCapacity, c) || id == CapacityId(c, n))
  }

  lemma NodesAreFiled(g: Dag, name: Naming, ids: set<Iri>, id: Id)
    requires Filed(g, name, ids) && id in g.nodes
    ensures name.Of(id) in ids
  {
    assert Asked(FILED);
  }

  lemma FiledApart(g: Dag, name: Naming, ids: set<Iri>, a: Id, b: Id)
    requires Filed(g, name, ids) && a in g.nodes && b in g.nodes && name.Of(a) == name.Of(b)
    ensures a == b
  {
    assert Asked(FILED);
  }

  lemma NumbersAreFiled(g: Dag, name: Naming, ids: set<Iri>, d: Iri, c: Iri, n: nat)
    requires Filed(g, name, ids)
    ensures n < At(g.nextValue, d) ==> name.Of(ValueId(d, n)) in ids
    ensures n < At(g.nextCapacity, c) ==> name.Of(CapacityId(c, n)) in ids
  {
    assert Asked(FILED);
  }

  lemma FiledMint(g: Dag, name: Naming, ids: set<Iri>, id: Id, g': Dag)
    requires Filed(g, name, ids) && name.Of(id) !in ids && g'.nodes.Keys == g.nodes.Keys + {id} && GivesOut(g, g', id)
    ensures Filed(g', name, ids + {name.Of(id)}) && Registered(name, g, ids, g', ids + {name.Of(id)})
  {
    assert Asked(FILED);
    assert g'.nodes.Keys - g.nodes.Keys == {id};
    assert name.All({id}) == {name.Of(id)};
  }

  lemma FiledSame(g: Dag, name: Naming, ids: set<Iri>, id: Id, g': Dag)
    requires Filed(g, name, ids) && name.Of(id) in ids && g'.nodes == g.nodes && GivesOut(g, g', id)
    ensures Filed(g', name, ids) && Registered(name, g, ids, g', ids)
  {
    assert Asked(FILED);
    assert g'.nodes.Keys - g.nodes.Keys == {};
  }

  lemma RegisteredNothing(name: Naming, g: Dag, ids: set<Iri>)
    ensures Registered(name, g, ids, g, ids)
  {
    assert g.nodes.Keys - g.nodes.Keys == {};
  }

  // What each kind of minting and each refusal registers.

  lemma OneMoreNumber(counters: map<Iri, nat>, key: Iri, more: map<Iri, nat>)
    requires more == counters[key := At(counters, key) + 1]
    ensures forall k :: At(more, k) == At(counters, k) + if k == key then 1 else 0
  {}

  lemma ValueGivesOut(g: Dag, ds: Iri, g': Dag)
    requires g'.nextValue == g.SkipValue(ds).nextValue && g'.nextCapacity == g.nextCapacity
    ensures GivesOut(g, g', g.NewValue(ds))
  {
    OneMoreNumber(g.nextValue, ds, g'.nextValue);
  }

  lemma CapacityGivesOut(g: Dag, c: Iri, g': Dag)
    requires g'.nextCapacity == g.SkipCapacity(c).nextCapacity && g'.nextValue == g.nextValue
    ensures GivesOut(g, g', g.NewCapacity(c))
  {
    OneMoreNumber(g.nextCapacity, c, g'.nextCapacity);
  }

  lemma ValueFiled(g: Dag, name: Naming, ids: set<Iri>, ds: Iri, value: Value)
    requires Filed(g, name, ids) && g.NewValue(ds) !in g.nodes && name.Of(g.NewValue(ds)) !in ids
    ensures Filed(g.MintValue(ds, value), name, ids + {name.Of(g.NewValue(ds))})
    ensures Registered(name, g, ids, g.MintValue(ds, value), ids + {name.Of(g.NewValue(ds))})
  {
    ValueGivesOut(g, ds, g.MintValue(ds, value));
    FiledMint(g, name, ids, g.NewValue(ds), g.MintValue(ds, value));
  }

  lemma ValueSkipped(g: Dag, name: Naming, ids: set<Iri>, ds: Iri)
    requires Filed(g, name, ids) && name.Of(g.NewValue(ds)) in ids
    ensures Filed(g.SkipValue(ds), name, ids + {name.Of(g.NewValue(ds))})
    ensures Registered(name, g, ids, g.SkipValue(ds), ids + {name.Of(g.NewValue(ds))})
  {
    InAlready(ids, name.Of(g.NewValue(ds)));
    ValueGivesOut(g, ds, g.SkipValue(ds));
    FiledSame(g, name, ids, g.NewValue(ds), g.SkipValue(ds));
  }

  lemma CapacityFiled(g: Dag, name: Naming, ids: set<Iri>, c: Iri)
    requires Filed(g, name, ids) && g.NewCapacity(c) !in g.nodes && name.Of(g.NewCapacity(c)) !in ids
    ensures Filed(g.MintCapacity(c), name, ids + {name.Of(g.NewCapacity(c))})
    ensures Registered(name, g, ids, g.MintCapacity(c), ids + {name.Of(g.NewCapacity(c))})
  {
    CapacityGivesOut(g, c, g.MintCapacity(c));
    FiledMint(g, name, ids, g.NewCapacity(c), g.MintCapacity(c));
  }

  lemma CapacitySkipped(g: Dag, name: Naming, ids: set<Iri>, c: Iri)
    requires Filed(g, name, ids) && name.Of(g.NewCapacity(c)) in ids
    ensures Filed(g.SkipCapacity(c), name, ids + {name.Of(g.NewCapacity(c))})
    ensures Registered(name, g, ids, g.SkipCapacity(c), ids + {name.Of(g.NewCapacity(c))})
  {
    InAlready(ids, name.Of(g.NewCapacity(c)));
    CapacityGivesOut(g, c, g.SkipCapacity(c));
    FiledSame(g, name, ids, g.NewCapacity(c), g.SkipCapacity(c));
  }

  lemma RootFiled(g: Dag, name: Naming, ids: set<Iri>, ds: Iri, value: Value)
    requires Filed(g, name, ids) && name.Of(RootId(ds)) !in ids
    ensures RootId(ds) !in g.nodes
    ensures Filed(g.MintRoot(ds, value), name, ids + {name.Of(RootId(ds))})
    ensures Registered(name, g, ids, g.MintRoot(ds, value), ids + {name.Of(RootId(ds))})
  {
    if RootId(ds) in g.nodes { NodesAreFiled(g, name, ids, RootId(ds)); }
    FiledMint(g, name, ids, RootId(ds), g.MintRoot(ds, value));
  }

  lemma MarkFiled(g: Dag, name: Naming, ids: set<Iri>, id: Id, content: Content)
    requires Filed(g, name, ids) && name.Of(id) !in ids && (id == StopId || id == ManifestId)
    ensures id !in g.nodes
    ensures Filed(g.MintMark(id, content), name, ids + {name.Of(id)})
    ensures Registered(name, g, ids, g.MintMark(id, content), ids + {name.Of(id)})
  {
    if id in g.nodes { NodesAreFiled(g, name, ids, id); }
    FiledMint(g, name, ids, id, g.MintMark(id, content));
  }

  lemma NothingMinted(g: Dag, name: Naming, ids: set<Iri>, id: Iri)
    requires Filed(g, name, ids) && id in ids
    ensures Filed(g, name, ids + {id}) && Registered(name, g, ids, g, ids + {id})
  {
    InAlready(ids, id);
    RegisteredNothing(name, g, ids);
  }

  lemma InAlready(ids: set<Iri>, id: Iri)
    requires id in ids
    ensures ids + {id} == ids
  {}

  lemma FiledEdges(g: Dag, name: Naming, ids: set<Iri>, edges: set<Edge>)
    requires Filed(g, name, ids)
    ensures Filed(g.(edges := edges), name, ids)
  {
    assert Asked(FILED);
  }

  lemma FiledAmongMore(g: Dag, name: Naming, ids: set<Iri>, more: set<Iri>)
    requires Filed(g, name, ids) && ids <= more
    ensures Filed(g, name, more)
  {
    assert Asked(FILED);
  }

  lemma RegisteredOn(name: Naming, a: Dag, ids: set<Iri>, b: Dag, ids': set<Iri>, c: Dag, ids'': set<Iri>)
    requires Registered(name, a, ids, b, ids') && Registered(name, b, ids', c, ids'')
    ensures Registered(name, a, ids, c, ids'')
  {
    assert Asked(REGISTERED);
    assert c.nodes.Keys - a.nodes.Keys == (b.nodes.Keys - a.nodes.Keys) + (c.nodes.Keys - b.nodes.Keys);
    AllOfBoth(name, b.nodes.Keys - a.nodes.Keys, c.nodes.Keys - b.nodes.Keys);
  }

  lemma AllOfBoth(name: Naming, a: set<Id>, b: set<Id>)
    ensures name.All(a + b) == name.All(a) + name.All(b)
  {}

  lemma RegisteredEdges(name: Naming, before: Dag, ids: set<Iri>, after: Dag, ids': set<Iri>, edges: set<Edge>)
    requires Registered(name, before, ids, after, ids')
    ensures Registered(name, before, ids, after.(edges := edges), ids')
  {
    assert Asked(REGISTERED);
  }
}
