/** The instance registry: what it drops when an instance, an element or a graph goes. */
module Registries {
  import opened Identifiers
  import opened Identities

  /** An instance of an element, of part of a graph, or a bundle of other instances. */
  datatype Entry =
    | ElementInstance(template: Iri)
    | SubGraphInstance(template: Iri, nodeIds: set<Iri>, edgeIds: set<Iri>)
    | CompositeInstance(members: seq<Iri>)
  {
    predicate Contains(id: Iri) { CompositeInstance? && id in members }

    /** By its template, or by an element it lists. */
    predicate References(id: Iri) {
      (!CompositeInstance? && template == id) || (SubGraphInstance? && (id in nodeIds || id in edgeIds))
    }
  }

  type Instances = map<Iri, Entry>

  /** With an instance, `s` holds every composite that contains it. */
  ghost predicate Drags(inst: Instances, s: set<Iri>) {
    forall c, m | c in inst && m in s && inst[c].Contains(m) :: c in s
  }

  /** Goes when the registered ones of `seeds` go: in every such set that has them. */
  ghost predicate Doomed(inst: Instances, seeds: set<Iri>, c: Iri) {
    c in inst && forall s: set<Iri> | seeds * inst.Keys <= s && Drags(inst, s) :: c in s
  }

  /** The registered ones of `seeds` and whatever contains them, at any depth. */
  ghost function Cascade(inst: Instances, seeds: set<Iri>): set<Iri> { set c | c in inst && Doomed(inst, seeds, c) }

  /** It is the least set with the registered seeds and everything that contains one of its members. */
  lemma CascadeIsLeast(inst: Instances, seeds: set<Iri>)
    ensures Cascade(inst, seeds) <= inst.Keys && seeds * inst.Keys <= Cascade(inst, seeds) && Drags(inst, Cascade(inst, seeds))
    ensures forall s: set<Iri> | seeds * inst.Keys <= s && Drags(inst, s) :: Cascade(inst, seeds) <= s
  {}

  /** Nothing goes without a cause, and no cause without effect: what goes is a seed, or a composite with a member that goes. */
  lemma WhatGoes(inst: Instances, seeds: set<Iri>, c: Iri)
    ensures c in Cascade(inst, seeds) <==>
      c in inst && (c in seeds || (inst[c].CompositeInstance? && exists m :: m in inst[c].members && m in Cascade(inst, seeds)))
  {
    var all := Cascade(inst, seeds);
    CascadeIsLeast(inst, seeds);
    if c in inst && inst[c].CompositeInstance? && exists m :: m in inst[c].members && m in all {
      var m :| m in inst[c].members && m in all;
      assert inst[c].Contains(m);
    }
    if c in all && c !in seeds && !(inst[c].CompositeInstance? && exists m :: m in inst[c].members && m in all) {
      assert Drags(inst, all - {c});
    }
  }

  /** What is left after a cascade contains nothing that went, whatever the containments are like. */
  lemma NothingLeftContains(inst: Instances, seeds: set<Iri>, c: Iri, m: Iri)
    requires c in inst - Cascade(inst, seeds) && inst[c].Contains(m)
    ensures m !in Cascade(inst, seeds)
  {
    CascadeIsLeast(inst, seeds);
  }

  /** One cascade after another drops what one cascade from both sets of seeds would. */
  lemma CascadesAdd(inst: Instances, s: set<Iri>, t: set<Iri>)
    ensures Cascade(inst, s + t) == Cascade(inst, s) + Cascade(inst - Cascade(inst, s), t)
  {
    var d := Cascade(inst, s);
    var rest := inst - d;
    var e := Cascade(rest, t);
    var all := Cascade(inst, s + t);
    CascadeIsLeast(inst, s);
    CascadeIsLeast(rest, t);
    CascadeIsLeast(inst, s + t);
    assert d <= all by { assert s * inst.Keys <= all; }
    assert Drags(inst, d + e);
    assert all <= d + e by { assert (s + t) * inst.Keys <= d + e; }
    assert Drags(rest, all);
    assert e <= all by { assert t * rest.Keys <= all; }
  }

  /** A cascade from one instance: the instance, and the cascades from what contains it directly. */
  lemma CascadeFromOne(inst: Instances, id: Iri)
    requires id in inst
    ensures Cascade(inst, {id}) == {id} + Cascade(inst - {id}, DirectContainers(inst - {id}, id))
  {
    var rest := inst - {id};
    var direct := DirectContainers(rest, id);
    var e := Cascade(rest, direct);
    var all := Cascade(inst, {id});
    CascadeIsLeast(rest, direct);
    CascadeIsLeast(inst, {id});
    assert direct <= rest.Keys;
    assert Drags(inst, {id} + e);
    assert all <= {id} + e by { assert {id} * inst.Keys <= {id} + e; }
    assert id in all by { assert id in {id} * inst.Keys; }
    assert Drags(rest, all);
    assert e <= all by {
      assert forall c | c in direct :: c in all;
      assert direct * rest.Keys <= all;
    }
  }

  function DirectContainers(inst: Instances, id: Iri): set<Iri> { set c | c in inst && inst[c].Contains(id) }

  function Referrers(inst: Instances, id: Iri): set<Iri> { set c | c in inst && inst[c].References(id) }

  function ReferrersOfAny(inst: Instances, ids: set<Iri>): set<Iri> { set c, id | id in ids && c in inst && inst[c].References(id) :: c }

  /** Who refers to what leaves: an instance of it, or one of a part of a graph that lists it; composites refer to nothing. */
  lemma ReferrersAre(inst: Instances, ids: set<Iri>, id: Iri, c: Iri)
    ensures Referrers(inst, id) == ReferrersOfAny(inst, {id})
    ensures c in ReferrersOfAny(inst, ids) <==>
      && c in inst && !inst[c].CompositeInstance?
      && (inst[c].template in ids || (inst[c].SubGraphInstance? && (inst[c].nodeIds + inst[c].edgeIds) * ids != {}))
  {
    if c in inst && inst[c].SubGraphInstance? {
      forall x | x in (inst[c].nodeIds + inst[c].edgeIds) * ids ensures inst[c].References(x) {}
      forall x | x in ids && inst[c].References(x) && inst[c].template != x ensures x in (inst[c].nodeIds + inst[c].edgeIds) * ids {}
    }
  }

  lemma NoMoreSeeds(inst: Instances, s: set<Iri>, t: set<Iri>)
    requires s * inst.Keys == t * inst.Keys
    ensures Cascade(inst, s) == Cascade(inst, t)
  {
    CascadeIsLeast(inst, s);
    CascadeIsLeast(inst, t);
  }

  /** The contents of a graph: its nodes, edges and hyperedges. */
  datatype Graph = Graph(nodes: set<Iri>, edges: set<Iri>, hyperedges: set<Iri>)
  {
    function Inner(): set<Iri> { nodes + edges + hyperedges }
  }

  class ElementRegistry {
    const identity: IdentityRegistry
    var instances: Instances

    constructor (identity: IdentityRegistry)
      ensures this.identity == identity && instances == map[]
    {
      this.identity, instances := identity, map[];
    }

    /** `add`: refused, with nothing changed, when the id is already an instance's or already in use. */
    method Add(id: Iri, entry: Entry) returns (ok: bool)
      modifies this, identity
      ensures ok <==> id !in old(instances) && id !in old(identity.ids)
      ensures ok ==> instances == old(instances)[id := entry] && identity.ids == old(identity.ids) + {id}
      ensures !ok ==> instances == old(instances) && identity.ids == old(identity.ids)
    {
      if id in instances { return false; }
      ok := identity.Register(id);
      if ok { instances := instances[id := entry]; }
    }

    /** `remove`: drops the instance and exactly what contains it, directly or not, and frees exactly those ids. */
    method Remove(id: Iri)
      modifies this, identity
      ensures instances == old(instances) - Cascade(old(instances), {id})
      ensures identity.ids == old(identity.ids) - Cascade(old(instances), {id})
      decreases instances.Keys, 0
    {
      ghost var was := instances;
      if id !in instances {
        NoMoreSeeds(was, {id}, {});
        CascadeOfNone(was);
        return;
      }
      instances := instances - {id};
      identity.Unregister(id);
      RemoveAll(DirectContainers(instances, id));
      CascadeFromOne(was, id);
    }

    /** The composites found first, then dropped one after the other; some may have gone with an earlier one. */
    method RemoveAll(toRemove: set<Iri>)
      modifies this, identity
      ensures instances == old(instances) - Cascade(old(instances), toRemove)
      ensures identity.ids == old(identity.ids) - Cascade(old(instances), toRemove)
      decreases instances.Keys, 1
    {
      ghost var was, ids := instances, identity.ids;
      var todo := toRemove;
      ghost var done := {};
      CascadeOfNone(was);
      while todo != {}
        invariant done + todo == toRemove
        invariant Gone(was, ids, Cascade(was, done), instances, identity.ids)
        decreases todo
      {
        var c :| c in todo;
        ghost var before, idsBefore := instances, identity.ids;
        Remove(c);
        OneMoreDropped(was, ids, done, c, before, idsBefore, instances, identity.ids);
        todo, done := todo - {c}, done + {c};
      }
    }

    /** `_cascade_referencing_id`. */
    method CascadeReferencing(id: Iri)
      modifies this, identity
      ensures instances == old(instances) - Cascade(old(instances), Referrers(old(instances), id))
      ensures identity.ids == old(identity.ids) - Cascade(old(instances), Referrers(old(instances), id))
    {
      RemoveAll(Referrers(instances, id));
    }

    /** `_on_graph_remove`: an element is about to leave a graph. */
    method OnGraphRemove(removed: Iri)
      modifies this, identity
      ensures instances == old(instances) - Cascade(old(instances), Referrers(old(instances), removed))
      ensures identity.ids == old(identity.ids) - Cascade(old(instances), Referrers(old(instances), removed))
      ensures forall c | c in instances :: !instances[c].References(removed)
    {
      CascadeIsLeast(instances, Referrers(instances, removed));
      CascadeReferencing(removed);
    }

    /** `_on_metagraph_remove`: a graph or an edge between graphs is about to leave. Gone are the instances that
        reference it or, for a graph, anything in it, and whatever contains one of those; and nothing else. */
    method OnMetagraphRemove(removed: Iri, graphs: map<Iri, Graph>)
      modifies this, identity
      ensures var gone := Cascade(old(instances), ReferrersOfAny(old(instances), Leaving(removed, graphs)));
        instances == old(instances) - gone && identity.ids == old(identity.ids) - gone
      ensures forall c, id | c in instances && id in Leaving(removed, graphs) :: !instances[c].References(id)
      ensures forall id :: id in Leaving(removed, graphs) <==>
        || id == removed
        || (removed in graphs && (id in graphs[removed].nodes || id in graphs[removed].edges || id in graphs[removed].hyperedges))
    {
      ghost var was, ids := instances, identity.ids;
      var inner := if removed in graphs then graphs[removed].Inner() else {};
      var todo := inner;
      NothingGone(was, ids, inner);
      CascadeIsLeast(was, ReferrersOfAny(was, Leaving(removed, graphs)));
      while todo != {}
        invariant todo <= inner
        invariant Gone(was, ids, Cascade(was, ReferrersOfAny(was, inner - todo)), instances, identity.ids)
      {
        var id :| id in todo;
        OneMoreReferenced(was, inner - todo, id);
        assert inner - todo + {id} == inner - (todo - {id});
        ghost var before, idsBefore := instances, identity.ids;
        CascadeReferencing(id);
        GoneAdds(was, ids, Cascade(was, ReferrersOfAny(was, inner - todo)), before, idsBefore,
          Cascade(before, Referrers(before, id)), instances, identity.ids);
        todo := todo - {id};
      }
      OneMoreReferenced(was, inner, removed);
      assert inner + {removed} == Leaving(removed, graphs) && inner - todo == inner;
      ghost var before, idsBefore := instances, identity.ids;
      CascadeReferencing(removed);
      GoneAdds(was, ids, Cascade(was, ReferrersOfAny(was, inner)), before, idsBefore,
        Cascade(before, Referrers(before, removed)), instances, identity.ids);
    }
  }

  function Leaving(removed: Iri, graphs: map<Iri, Graph>): set<Iri> {
    (if removed in graphs then graphs[removed].Inner() else {}) + {removed}
  }

  /** Exactly the ids of `d` are gone, from the instances and from the ids in use. */
  predicate Gone(inst: Instances, ids: set<Iri>, d: set<Iri>, inst': Instances, ids': set<Iri>) {
    inst' == inst - d && ids' == ids - d
  }

  lemma GoneAdds(
    inst: Instances, ids: set<Iri>, d: set<Iri>, inst': Instances, ids': set<Iri>, d': set<Iri>, inst'': Instances, ids'': set<Iri>)
    requires Gone(inst, ids, d, inst', ids') && Gone(inst', ids', d', inst'', ids'')
    ensures Gone(inst, ids, d + d', inst'', ids'')
  {}

  lemma OneMoreDropped(inst: Instances, ids: set<Iri>, done: set<Iri>, c: Iri,
                       inst': Instances, ids': set<Iri>, inst'': Instances, ids'': set<Iri>)
    requires Gone(inst, ids, Cascade(inst, done), inst', ids') && Gone(inst', ids', Cascade(inst', {c}), inst'', ids'')
    ensures Gone(inst, ids, Cascade(inst, done + {c}), inst'', ids'')
  {
    CascadesAdd(inst, done, {c});
    GoneAdds(inst, ids, Cascade(inst, done), inst', ids', Cascade(inst', {c}), inst'', ids'');
  }

  lemma NothingGone(inst: Instances, ids: set<Iri>, inner: set<Iri>)
    ensures Gone(inst, ids, Cascade(inst, ReferrersOfAny(inst, inner - inner)), inst, ids)
  {
    CascadeOfNone(inst);
    assert ReferrersOfAny(inst, inner - inner) == {};
  }

  lemma CascadeOfNone(inst: Instances)
    ensures Cascade(inst, {}) == {}
  {
    CascadeIsLeast(inst, {});
    assert Drags(inst, {});
  }

  /** Referrers looked for among what is left are the referrers there were, so the order of the cascades is nothing. */
  lemma OneMoreReferenced(inst: Instances, ids: set<Iri>, id: Iri)
    ensures var before := Cascade(inst, ReferrersOfAny(inst, ids));
      Cascade(inst, ReferrersOfAny(inst, ids + {id})) == before + Cascade(inst - before, Referrers(inst - before, id))
  {
    var before := Cascade(inst, ReferrersOfAny(inst, ids));
    var rest := inst - before;
    assert ReferrersOfAny(inst, ids + {id}) == ReferrersOfAny(inst, ids) + Referrers(inst, id);
    CascadesAdd(inst, ReferrersOfAny(inst, ids), Referrers(inst, id));
    NoMoreSeeds(rest, Referrers(inst, id), Referrers(rest, id));
  }
}
