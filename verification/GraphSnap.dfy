/** One contained graph: its dicts of nodes, edges and hyperedges, its snapshot, and its restoration in place. */
module GraphSnaps {
  import opened Identifiers
  import opened DeepCopies
  import opened Folding

  const GRAPH_COPIED := 3
  const FITS := 4

  datatype Kind = KindNode | KindEdge | KindHyperEdge | KindMetaEdge | KindXRef

  type Dirty = map<Kind, set<Iri>>

  /** What is dirty; a kind without a set has nothing dirty. */
  function DirtyIn(d: Dirty, k: Kind): set<Iri> { if k in d then d[k] else {} }

  ghost predicate SameDirty(a: Dirty, b: Dirty) { forall k :: DirtyIn(a, k) == DirtyIn(b, k) }

  /** The per-kind sets cleared where they lie and filled again. */
  function Refilled(live: Dirty, saved: Dirty): (d: Dirty)
    ensures SameDirty(d, saved) && live.Keys <= d.Keys
  {
    map k | k in live.Keys + saved.Keys :: DirtyIn(saved, k)
  }

  datatype DictName = Nodes | Edges | HyperEdges | Properties | MetaEdges | MetaHyperEdges | IntergraphEdges | IntergraphHyperEdges

  /** A dict that one graph, or the metagraph itself, holds for good and changes in place. */
  class Dict {
    ghost const owner: Option<Iri>
    ghost const name: DictName
    var items: Fields

    constructor (ghost owner: Option<Iri>, ghost name: DictName)
      ensures this.owner == owner && this.name == name && items == map[]
    {
      this.owner, this.name, items := owner, name, map[];
    }

    /** `clear()`, then `update(copy.deepcopy(saved))`. */
    method Refill(saved: Fields, ghost own: set<Obj>, ghost p: Picture, ghost others: set<Obj>)
      returns (ghost m: Memo, ghost q: Picture)
      requires Inside(saved, own) && Kept(own, p)
      modifies this
      ensures unchanged(own) && unchanged(others)
      ensures fresh(m.Values) && Kept(m.Values, q) && Copied(p, saved, m, q, items)
    {
      items := map[];
      var copy, memo;
      copy, memo, q := DeepCopy(saved, own, p);
      items := items + copy;
      m := memo;
    }
  }

  method RefillTwo(d: Dict, e: Dict, saved: Fields, other: Fields, ghost own: set<Obj>, ghost p: Picture, ghost others: set<Obj>)
    returns (ghost m: Memo, ghost n: Memo, ghost q: Picture)
    requires d != e && Inside(saved, own) && Inside(other, own) && Kept(own, p)
    modifies d, e
    ensures unchanged(own) && unchanged(others)
    ensures fresh(m.Values + n.Values) && m.Values !! n.Values && Kept(m.Values + n.Values, q)
    ensures Copied(p, saved, m, q, d.items) && Copied(p, other, n, q, e.items)
  {
    ghost var q1, q2;
    m, q1 := d.Refill(saved, own, p, others);
    n, q2 := e.Refill(other, own, p, others + m.Values);
    KeptBoth(m.Values, q1, n.Values, q2);
    q := q1 + q2;
    CopiedInLarger(p, saved, m, q1, d.items, q);
    CopiedInLarger(p, other, n, q2, e.items, q);
  }

  method CopyTwo(items: Fields, other: Fields, ghost live: set<Obj>, ghost p: Picture)
    returns (copy: Fields, ghost m: Memo, copy': Fields, ghost n: Memo, ghost q: Picture)
    requires Inside(items, live) && Inside(other, live) && Kept(live, p)
    ensures fresh(m.Values + n.Values) && m.Values !! n.Values && Kept(m.Values + n.Values, q)
    ensures Copied(p, items, m, q, copy) && Copied(p, other, n, q, copy')
  {
    var m', n';
    ghost var q1, q2;
    copy, m', q1 := DeepCopy(items, live, p);
    copy', n', q2 := DeepCopy(other, live, p);
    m, n, q := m', n', q1 + q2;
    KeptBoth(m.Values, q1, n.Values, q2);
    CopiedInLarger(p, items, m, q1, copy, q);
    CopiedInLarger(p, other, n, q2, copy', q);
  }

  datatype GraphSnap = GraphSnap(
    name: string, role: Option<Iri>, schema: Slot, nodes: Fields, edges: Fields, hyperedges: Fields, properties: Fields, dirty: Dirty)
  {
    predicate Within(s: set<Obj>) { Inside(nodes, s) && Inside(edges, s) && Inside(hyperedges, s) && Inside(properties, s) }
  }

  /** What each of the four dicts' objects were copied to, and all the copies. */
  datatype GraphMemos = GraphMemos(nodes: Memo, edges: Memo, hyperedges: Memo, properties: Memo, made: set<Obj>)
  {
    /** Four separate copies. */
    predicate Apart() {
      && nodes.Values !! edges.Values && nodes.Values !! hyperedges.Values && nodes.Values !! properties.Values
      && edges.Values !! hyperedges.Values && edges.Values !! properties.Values && hyperedges.Values !! properties.Values
    }

    ghost predicate Fits() {
      forall key {:trigger Asked(key)} :: Asked(key) && key == FITS ==>
        Apart() && made == nodes.Values + edges.Values + (hyperedges.Values + properties.Values)
    }
  }

  /** `b` is `a` as the picture has it, dict by dict: all but what is dirty. */
  ghost predicate GraphCopied(p: Picture, a: GraphSnap, ms: GraphMemos, q: Picture, b: GraphSnap) {
    forall key {:trigger Asked(key)} :: Asked(key) && key == GRAPH_COPIED ==>
      && a.name == b.name && a.role == b.role && a.schema == b.schema
      && Copied(p, a.nodes, ms.nodes, q, b.nodes) && Copied(p, a.edges, ms.edges, q, b.edges)
      && Copied(p, a.hyperedges, ms.hyperedges, q, b.hyperedges) && Copied(p, a.properties, ms.properties, q, b.properties)
  }

  lemma GraphCopiedInLarger(p: Picture, a: GraphSnap, ms: GraphMemos, q: Picture, b: GraphSnap, more: Picture)
    requires GraphCopied(p, a, ms, q, b) && Larger(q, more)
    ensures GraphCopied(p, a, ms, more, b)
  {
    FourCopies(p, a, ms, q, b);
    CopiedInLarger(p, a.nodes, ms.nodes, q, b.nodes, more);
    CopiedInLarger(p, a.edges, ms.edges, q, b.edges, more);
    CopiedInLarger(p, a.hyperedges, ms.hyperedges, q, b.hyperedges, more);
    CopiedInLarger(p, a.properties, ms.properties, q, b.properties, more);
  }

  lemma FourCopies(p: Picture, a: GraphSnap, ms: GraphMemos, q: Picture, b: GraphSnap)
    requires GraphCopied(p, a, ms, q, b)
    ensures a.name == b.name && a.role == b.role && a.schema == b.schema
    ensures Copied(p, a.nodes, ms.nodes, q, b.nodes) && Copied(p, a.edges, ms.edges, q, b.edges)
    ensures Copied(p, a.hyperedges, ms.hyperedges, q, b.hyperedges) && Copied(p, a.properties, ms.properties, q, b.properties)
  {
    assert Asked(GRAPH_COPIED);
  }

  class Graph {
    const graphId: Iri
    const nodes: Dict
    const edges: Dict
    const hyperedges: Dict
    const properties: Dict
    var name: string
    var role: Option<Iri>
    var schema: Slot
    var dirty: Dirty

    /** An empty graph, with dicts of its own. */
    constructor (graphId: Iri, name: string, role: Option<Iri>, schema: Slot)
      ensures this.graphId == graphId && Wired() && fresh(Dicts()) && dirty == map[]
      ensures Described() == GraphSnap(name, role, schema, map[], map[], map[], map[], map[])
    {
      this.graphId, this.name, this.role, this.schema, dirty := graphId, name, role, schema, map[];
      nodes := new Dict(Some(graphId), Nodes);
      edges := new Dict(Some(graphId), Edges);
      hyperedges := new Dict(Some(graphId), HyperEdges);
      properties := new Dict(Some(graphId), Properties);
    }

    ghost predicate Wired() {
      && nodes.owner == edges.owner == hyperedges.owner == properties.owner == Some(graphId)
      && nodes.name == Nodes && edges.name == Edges && hyperedges.name == HyperEdges && properties.name == Properties
    }

    ghost function Dicts(): set<Dict> { {nodes, edges, hyperedges, properties} }

    /** The graph as it is, by reference. */
    ghost function Described(): GraphSnap
      reads this, Dicts()
    {
      GraphSnap(name, role, schema, nodes.items, edges.items, hyperedges.items, properties.items, dirty)
    }

    /** The graph's part of `of`. */
    method Snap(ghost live: set<Obj>, ghost p: Picture) returns (s: GraphSnap, ghost ms: GraphMemos, ghost q: Picture)
      requires Described().Within(live) && Kept(live, p)
      ensures fresh(ms.made) && ms.Fits() && Kept(ms.made, q)
      ensures GraphCopied(p, Described(), ms, q, s) && s.dirty == dirty
    {
      ghost var q1, q2, mn, me, mh, mb;
      var n, e, h, b;
      n, mn, e, me, q1 := CopyTwo(nodes.items, edges.items, live, p);
      h, mh, b, mb, q2 := CopyTwo(hyperedges.items, properties.items, live, p);
      s, ms := GraphSnap(name, role, schema, n, e, h, b, dirty), GraphMemos(mn, me, mh, mb, mn.Values + me.Values + (mh.Values + mb.Values));
      FitsWhen(ms);
      q := Gather(p, Described(), ms, q1, q2, s);
    }

    /** The dicts cleared and refilled, each from a copy of its own. */
    method RefillAll(s: GraphSnap, ghost own: set<Obj>, ghost p: Picture) returns (ghost ms: GraphMemos, ghost q: Picture)
      requires Wired() && s.Within(own) && Kept(own, p) && name == s.name && role == s.role && schema == s.schema
      modifies Dicts()
      ensures fresh(ms.made) && ms.Fits() && Kept(ms.made, q) && GraphCopied(p, s, ms, q, Described()) && Kept(own, p)
    {
      ghost var q1, q2, mn, me, mh, mb;
      mn, me, q1 := RefillTwo(nodes, edges, s.nodes, s.edges, own, p, {});
      ghost var two := mn.Values + me.Values;
      mh, mb, q2 := RefillTwo(hyperedges, properties, s.hyperedges, s.properties, own, p, two);
      assert Kept(two, q1);
      ms := GraphMemos(mn, me, mh, mb, mn.Values + me.Values + (mh.Values + mb.Values));
      FitsWhen(ms);
      q := Gather(p, s, ms, q1, q2, Described());
    }

    /** A survivor's part of `restore_into`. */
    method Restore(s: GraphSnap, ghost own: set<Obj>, ghost p: Picture) returns (ghost ms: GraphMemos, ghost q: Picture)
      requires Wired() && s.Within(own) && Kept(own, p)
      modifies this, Dicts()
      ensures fresh(ms.made) && ms.Fits() && Kept(ms.made, q)
      ensures GraphCopied(p, s, ms, q, Described()) && SameDirty(dirty, s.dirty) && Kept(own, p)
    {
      name, role, schema := s.name, s.role, s.schema;
      ms, q := RefillAll(s, own, p);
      ghost var now := Described();
      dirty := Refilled(dirty, s.dirty);
      DirtyApart(p, s, ms, q, now, Described());
    }
  }

  lemma DirtyApart(p: Picture, a: GraphSnap, ms: GraphMemos, q: Picture, b: GraphSnap, c: GraphSnap)
    requires GraphCopied(p, a, ms, q, b) && c == b.(dirty := c.dirty)
    ensures GraphCopied(p, a, ms, q, c)
  {
    assert Asked(GRAPH_COPIED);
  }

  lemma FitsWhen(ms: GraphMemos)
    requires ms.Apart() && ms.made == ms.nodes.Values + ms.edges.Values + (ms.hyperedges.Values + ms.properties.Values)
    ensures ms.Fits()
  {}

  /** Four copies, in one picture. */
  lemma Gather(p: Picture, a: GraphSnap, ms: GraphMemos, q1: Picture, q2: Picture, b: GraphSnap) returns (q: Picture)
    requires a.name == b.name && a.role == b.role && a.schema == b.schema && ms.Fits()
    requires Kept(ms.nodes.Values + ms.edges.Values, q1) && Kept(ms.hyperedges.Values + ms.properties.Values, q2)
    requires Copied(p, a.nodes, ms.nodes, q1, b.nodes) && Copied(p, a.edges, ms.edges, q1, b.edges)
    requires Copied(p, a.hyperedges, ms.hyperedges, q2, b.hyperedges) && Copied(p, a.properties, ms.properties, q2, b.properties)
    ensures Kept(ms.made, q) && GraphCopied(p, a, ms, q, b)
  {
    KeptBoth(ms.nodes.Values + ms.edges.Values, q1, ms.hyperedges.Values + ms.properties.Values, q2);
    q := q1 + q2;
    assert Asked(FITS);
    CopiedInLarger(p, a.nodes, ms.nodes, q1, b.nodes, q);
    CopiedInLarger(p, a.edges, ms.edges, q1, b.edges, q);
    CopiedInLarger(p, a.hyperedges, ms.hyperedges, q2, b.hyperedges, q);
    CopiedInLarger(p, a.properties, ms.properties, q2, b.properties, q);
  }

  /** A graph that is gone, built anew: nothing in it is dirty. */
  method Rebuilt(gid: Iri, s: GraphSnap, ghost own: set<Obj>, ghost p: Picture)
    returns (g: Graph, ghost ms: GraphMemos, ghost q: Picture)
    requires s.Within(own) && Kept(own, p)
    ensures fresh(g) && fresh(g.Dicts()) && g.graphId == gid && g.Wired() && fresh(ms.made) && ms.Fits() && Kept(ms.made, q)
    ensures GraphCopied(p, s, ms, q, g.Described()) && g.dirty == map[]
  {
    g := new Graph(gid, s.name, s.role, s.schema);
    ms, q := g.RefillAll(s, own, p);
  }

  // ---- what is shared, and what no longer is ----

  function FieldsOf(g: GraphSnap, name: DictName): Fields {
    match name
    case Nodes => g.nodes
    case Edges => g.edges
    case HyperEdges => g.hyperedges
    case Properties => g.properties
    case _ => map[]
  }

  /** In the copy two paths meet exactly if they start in one dict and met there before. */
  lemma SharedWithinADict(
    p: Picture, a: GraphSnap, ms: GraphMemos, q: Picture, b: GraphSnap, d: DictName, path: seq<string>, e: DictName, other: seq<string>)
    requires GraphCopied(p, a, ms, q, b) && ms.Fits() && path != [] && other != []
    ensures Meet(q, FieldsOf(b, d), path, FieldsOf(b, e), other) <==> d == e && Meet(p, FieldsOf(a, d), path, FieldsOf(a, e), other)
  {
    PathIsCopied(p, a, ms, q, b, d, path);
    PathIsCopied(p, a, ms, q, b, e, other);
    if d != e { MemosAreApart(ms, d, e); }
    MeetsAgain(Follow(p, FieldsOf(a, d), path), MemoOf(ms, d), Follow(q, FieldsOf(b, d), path),
      Follow(p, FieldsOf(a, e), other), MemoOf(ms, e), Follow(q, FieldsOf(b, e), other), d == e);
  }

  lemma MemosAreApart(ms: GraphMemos, d: DictName, e: DictName)
    requires ms.Fits() && d != e
    ensures MemoOf(ms, d).Values !! MemoOf(ms, e).Values
  {
    assert Asked(FITS);
  }

  function MemoOf(ms: GraphMemos, name: DictName): Memo {
    match name
    case Nodes => ms.nodes
    case Edges => ms.edges
    case HyperEdges => ms.hyperedges
    case Properties => ms.properties
    case _ => map[]
  }

  lemma PathIsCopied(p: Picture, a: GraphSnap, ms: GraphMemos, q: Picture, b: GraphSnap, d: DictName, path: seq<string>)
    requires GraphCopied(p, a, ms, q, b) && path != []
    ensures LedOver(Follow(p, FieldsOf(a, d), path), MemoOf(ms, d), Follow(q, FieldsOf(b, d), path)) && Injective(MemoOf(ms, d))
  {
    FourCopies(p, a, ms, q, b);
    assert Asked(COPIED);
    match d
    case Nodes => FollowsAlike(p, a.nodes, ms.nodes, q, b.nodes, path);
    case Edges => FollowsAlike(p, a.edges, ms.edges, q, b.edges, path);
    case HyperEdges => FollowsAlike(p, a.hyperedges, ms.hyperedges, q, b.hyperedges, path);
    case Properties => FollowsAlike(p, a.properties, ms.properties, q, b.properties, path);
    case _ =>
  }

  // ---- the endpoints of edges ----

  /** An edge has a source and a target, and a hyperedge a set with some member: all of them objects. */
  ghost predicate IsEdge(p: Picture, slot: Slot) {
    && slot.Ref? && slot.o in p && "source" in p[slot.o] && p[slot.o]["source"].Ref?
    && "target" in p[slot.o] && p[slot.o]["target"].Ref?
  }

  ghost predicate IsHyperEdge(p: Picture, slot: Slot) {
    && slot.Ref? && slot.o in p && "nodes" in p[slot.o] && p[slot.o]["nodes"].Ref? && p[slot.o]["nodes"].o in p
    && p[p[slot.o]["nodes"].o] != map[] && forall k | k in p[p[slot.o]["nodes"].o] :: p[p[slot.o]["nodes"].o][k].Ref?
  }

  ghost predicate LinksFit(p: Picture, g: GraphSnap) {
    && (forall k | k in g.edges :: IsEdge(p, g.edges[k]))
    && forall k | k in g.hyperedges :: IsHyperEdge(p, g.hyperedges[k])
  }

  ghost predicate EdgeJoined(p: Picture, edge: Slot, nodes: Fields)
    requires IsEdge(p, edge)
  {
    p[edge.o]["source"] in nodes.Values && p[edge.o]["target"] in nodes.Values
  }

  ghost predicate HyperEdgeJoined(p: Picture, edge: Slot, nodes: Fields)
    requires IsHyperEdge(p, edge)
  {
    forall k | k in p[p[edge.o]["nodes"].o] :: p[p[edge.o]["nodes"].o][k] in nodes.Values
  }

  /** Each endpoint of the edges, and each member of the hyperedges, is one of the objects filed under `nodes`. */
  ghost predicate Joined(p: Picture, g: GraphSnap)
    requires LinksFit(p, g)
  {
    && (forall k | k in g.edges :: EdgeJoined(p, g.edges[k], g.nodes))
    && forall k | k in g.hyperedges :: HyperEdgeJoined(p, g.hyperedges[k], g.nodes)
  }

  lemma EdgeComesApart(p: Picture, a: Fields, m: Memo, q: Picture, b: Fields, k: string, nodes: Fields)
    requires Copied(p, a, m, q, b) && k in a && IsEdge(p, a[k])
    requires forall n | n in nodes && nodes[n].Ref? :: nodes[n].o !in m.Values
    ensures k in b && IsEdge(q, b[k]) && !EdgeJoined(q, b[k], nodes)
  {
    assert Asked(COPIED);
    var e := a[k].o;
    assert b[k] == Ref(m[e]) && q[m[e]] == Renamed(p[e], m);
    assert q[m[e]]["source"] == Ref(m[p[e]["source"].o]) && m[p[e]["source"].o] in m.Values;
  }

  lemma HyperEdgeComesApart(p: Picture, a: Fields, m: Memo, q: Picture, b: Fields, k: string, nodes: Fields)
    requires Copied(p, a, m, q, b) && k in a && IsHyperEdge(p, a[k])
    requires forall n | n in nodes && nodes[n].Ref? :: nodes[n].o !in m.Values
    ensures k in b && IsHyperEdge(q, b[k]) && !HyperEdgeJoined(q, b[k], nodes)
  {
    assert Asked(COPIED);
    var e := a[k].o;
    var h := p[e]["nodes"].o;
    assert b[k] == Ref(m[e]) && q[m[e]] == Renamed(p[e], m);
    assert q[m[e]]["nodes"] == Ref(m[h]) && q[m[h]] == Renamed(p[h], m);
    var j :| j in p[h];
    assert q[m[h]][j] == Ref(m[p[h][j].o]) && m[p[h][j].o] in m.Values;
  }

  /** Nodes and links are copied apart: in the copy the endpoints are the graph's own node objects exactly if it has no
      edge and no hyperedge. */
  lemma EndpointsComeApart(p: Picture, a: GraphSnap, ms: GraphMemos, q: Picture, b: GraphSnap)
    requires GraphCopied(p, a, ms, q, b) && ms.Fits() && LinksFit(p, a)
    ensures LinksFit(q, b)
    ensures Joined(q, b) <==> b.edges == map[] && b.hyperedges == map[]
  {
    MemosAreApart(ms, Nodes, Edges);
    MemosAreApart(ms, Nodes, HyperEdges);
    FourCopies(p, a, ms, q, b);
    CopyIsWithin(p, a.edges, ms.edges, q, b.edges);
    CopyIsWithin(p, a.hyperedges, ms.hyperedges, q, b.hyperedges);
    CopyIsWithin(p, a.nodes, ms.nodes, q, b.nodes);
    forall k | k in b.edges ensures IsEdge(q, b.edges[k]) && !EdgeJoined(q, b.edges[k], b.nodes) {
      EdgeComesApart(p, a.edges, ms.edges, q, b.edges, k, b.nodes);
    }
    forall k | k in b.hyperedges ensures IsHyperEdge(q, b.hyperedges[k]) && !HyperEdgeJoined(q, b.hyperedges[k], b.nodes) {
      HyperEdgeComesApart(p, a.hyperedges, ms.hyperedges, q, b.hyperedges, k, b.nodes);
    }
  }
}
