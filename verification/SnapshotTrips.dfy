/** Captures and restores with any use of the metagraph in between: what comes back, what is shared, and what is lost. */
module SnapshotTrips {
  import opened Identifiers
  import opened Identities
  import opened Folding
  import opened DeepCopies
  import opened GraphSnaps
  import opened GraphRestores
  import opened CrossReferences
  import opened Snapshots
  import R = Registries

  // ---- there and back ----

  function ThenTop(m: TopMemos, n: TopMemos): TopMemos {
    TopMemos(Then(m.properties, n.properties), Then(m.metaedges, n.metaedges), Then(m.metahyperedges, n.metahyperedges),
      Then(m.intergraphEdges, n.intergraphEdges), Then(m.intergraphHyperedges, n.intergraphHyperedges), n.made)
  }

  lemma TopCopiedTwice(p: Picture, a: TopSnap, m: TopMemos, q: Picture, b: TopSnap, n: TopMemos, r: Picture, c: TopSnap)
    requires TopCopied(p, a, m, q, b) && TopCopied(q, b, n, r, c)
    ensures TopCopied(p, a, ThenTop(m, n), r, c)
  {
    assert Asked(TOP_COPIED);
    CopiedTwice(p, a.properties, m.properties, q, b.properties, n.properties, r, c.properties);
    CopiedTwice(p, a.metaedges, m.metaedges, q, b.metaedges, n.metaedges, r, c.metaedges);
    CopiedTwice(p, a.metahyperedges, m.metahyperedges, q, b.metahyperedges, n.metahyperedges, r, c.metahyperedges);
    CopiedTwice(p, a.intergraphEdges, m.intergraphEdges, q, b.intergraphEdges, n.intergraphEdges, r, c.intergraphEdges);
    CopiedTwice(p, a.intergraphHyperedges, m.intergraphHyperedges, q, b.intergraphHyperedges, n.intergraphHyperedges, r, c.intergraphHyperedges);
  }

  function ThenGraph(m: GraphMemos, n: GraphMemos): GraphMemos {
    GraphMemos(Then(m.nodes, n.nodes), Then(m.edges, n.edges), Then(m.hyperedges, n.hyperedges), Then(m.properties, n.properties), n.made)
  }

  lemma GraphCopiedTwice(
    p: Picture, a: GraphSnap, m: GraphMemos, q: Picture, b: GraphSnap, n: GraphMemos, r: Picture, c: GraphSnap)
    requires GraphCopied(p, a, m, q, b) && GraphCopied(q, b, n, r, c)
    ensures GraphCopied(p, a, ThenGraph(m, n), r, c)
  {
    FourCopies(p, a, m, q, b);
    FourCopies(q, b, n, r, c);
    CopiedTwice(p, a.nodes, m.nodes, q, b.nodes, n.nodes, r, c.nodes);
    CopiedTwice(p, a.edges, m.edges, q, b.edges, n.edges, r, c.edges);
    CopiedTwice(p, a.hyperedges, m.hyperedges, q, b.hyperedges, n.hyperedges, r, c.hyperedges);
    CopiedTwice(p, a.properties, m.properties, q, b.properties, n.properties, r, c.properties);
  }

  function ThenAll(m: Memos, n: Memos): Memos {
    Memos(ThenTop(m.top, n.top), map gid | gid in m.graphs && gid in n.graphs :: ThenGraph(m.graphs[gid], n.graphs[gid]), n.made)
  }

  /** The copy of a copy is a copy of the first. */
  lemma SnapCopiedTwice(p: Picture, a: Snapshot, m: Memos, q: Picture, b: Snapshot, n: Memos, r: Picture, c: Snapshot)
    requires SnapCopied(p, a, m, q, b) && SnapCopied(q, b, n, r, c)
    ensures SnapCopied(p, a, ThenAll(m, n), r, c)
  {
    assert Asked(SNAP_COPIED);
    TopCopiedTwice(p, a.top, m.top, q, b.top, n.top, r, c.top);
    GraphsCopiedTwice(p, a.graphs, m.graphs, q, b.graphs, n.graphs, r, c.graphs);
  }

  lemma GraphsCopiedTwice(
    p: Picture, a: map<Iri, GraphSnap>, m: AllGraphMemos, q: Picture, b: map<Iri, GraphSnap>, n: AllGraphMemos, r: Picture, c: map<Iri, GraphSnap>)
    requires GraphsCopied(p, a, m, q, b) && GraphsCopied(q, b, n, r, c)
    ensures GraphsCopied(p, a, map gid | gid in m && gid in n :: ThenGraph(m[gid], n[gid]), r, c)
  {
    forall gid | gid in a ensures GraphCopied(p, a[gid], ThenGraph(m[gid], n[gid]), r, c[gid]) {
      GraphCopiedTwice(p, a[gid], m[gid], q, b[gid], n[gid], r, c[gid]);
    }
  }

  /** In what was copied, the endpoints of a graph are its own node objects exactly if it has no edge and no hyperedge. */
  lemma EndpointsOfTheCopy(p: Picture, a: Snapshot, ms: Memos, q: Picture, b: Snapshot, gid: Iri)
    requires SnapCopied(p, a, ms, q, b) && ms.Fits() && gid in b.graphs && forall g | g in a.graphs :: LinksFit(p, a.graphs[g])
    ensures LinksFit(q, b.graphs[gid])
    ensures Joined(q, b.graphs[gid]) <==> b.graphs[gid].edges == map[] && b.graphs[gid].hyperedges == map[]
  {
    assert Asked(SNAP_COPIED) && Asked(FITS);
    EndpointsComeApart(p, a.graphs[gid], ms.graphs[gid], q, b.graphs[gid]);
  }

  lemma MemoWithin(ms: GraphMemos, d: DictName)
    requires ms.Fits()
    ensures MemoOf(ms, d).Values <= ms.made
  {
    assert Asked(FITS);
  }

  /** Of what the graphs share, exactly what one dict of one graph shares with itself is shared in the copy. */
  lemma SharedWithinOneDict(
    p: Picture, a: Snapshot, ms: Memos, q: Picture, b: Snapshot, g: Iri, d: DictName, path: seq<string>, h: Iri, e: DictName, other: seq<string>)
    requires SnapCopied(p, a, ms, q, b) && ms.Fits() && g in b.graphs
    requires h in b.graphs && g in a.graphs && h in a.graphs && path != [] && other != []
    ensures Meet(q, FieldsOf(b.graphs[g], d), path, FieldsOf(b.graphs[h], e), other) <==>
      g == h && d == e && Meet(p, FieldsOf(a.graphs[g], d), path, FieldsOf(a.graphs[h], e), other)
  {
    assert Asked(SNAP_COPIED) && Asked(FITS);
    if g == h {
      SharedWithinADict(p, a.graphs[g], ms.graphs[g], q, b.graphs[g], d, path, e, other);
    } else {
      PathIsCopied(p, a.graphs[g], ms.graphs[g], q, b.graphs[g], d, path);
      PathIsCopied(p, a.graphs[h], ms.graphs[h], q, b.graphs[h], e, other);
      MemoWithin(ms.graphs[g], d);
      MemoWithin(ms.graphs[h], e);
      MeetsAgain(Follow(p, FieldsOf(a.graphs[g], d), path), MemoOf(ms.graphs[g], d), Follow(q, FieldsOf(b.graphs[g], d), path),
        Follow(p, FieldsOf(a.graphs[h], e), other), MemoOf(ms.graphs[h], e), Follow(q, FieldsOf(b.graphs[h], e), other), false);
    }
  }

  /** What a program that holds the metagraph can get at, but for the contents of its dicts. */
  ghost function Held(mg: Metagraph): set<object>
    reads mg`graphs
  {
    {mg, mg.identity} + mg.TopDicts() + Footprint(mg.graphs)
  }

  /** Any use of the metagraph between a capture and a restore: it writes to what is in `reach` and makes new objects, but
      never gets at what only the snapshot holds. Graphs in `keep` stay. */
  method Use(mg: Metagraph, ghost reach: set<object>, ghost others: set<object>, keep: set<Iri>) returns (ghost made: set<object>)
    requires mg.Valid() && Held(mg) <= reach && others !! reach && keep <= mg.graphs.Keys
    modifies reach
    ensures mg.Valid() && fresh(made) && Held(mg) <= reach + made && unchanged(others) && keep <= mg.graphs.Keys
  {
    var gone :| gone <= mg.graphs.Keys - keep;
    StillFiled(mg.graphs, gone);
    mg.graphs := Gone(mg.graphs, gone);
    modify set o | o in reach && (o is Obj || o is Dict);
    made := {};
  }

  lemma StillFiled(graphs: map<Iri, Graph>, gone: set<Iri>)
    requires Filed(graphs)
    ensures Filed(Gone(graphs, gone)) && Footprint(Gone(graphs, gone)) <= Footprint(graphs)
  {
    assert Asked(FILED);
  }

  lemma CopyIsWithinGraph(p: Picture, a: GraphSnap, ms: GraphMemos, q: Picture, b: GraphSnap)
    requires GraphCopied(p, a, ms, q, b) && ms.Fits()
    ensures b.Within(ms.made)
  {
    FourCopies(p, a, ms, q, b);
    CopyIsWithin(p, a.nodes, ms.nodes, q, b.nodes);
    CopyIsWithin(p, a.edges, ms.edges, q, b.edges);
    CopyIsWithin(p, a.hyperedges, ms.hyperedges, q, b.hyperedges);
    CopyIsWithin(p, a.properties, ms.properties, q, b.properties);
    assert Asked(FITS);
  }

  lemma CopyIsWithinTop(p: Picture, a: TopSnap, ms: TopMemos, q: Picture, b: TopSnap)
    requires TopCopied(p, a, ms, q, b) && ms.Fits()
    ensures b.Within(ms.made)
  {
    assert Asked(TOP_COPIED);
    CopyIsWithin(p, a.properties, ms.properties, q, b.properties);
    CopyIsWithin(p, a.metaedges, ms.metaedges, q, b.metaedges);
    CopyIsWithin(p, a.metahyperedges, ms.metahyperedges, q, b.metahyperedges);
    CopyIsWithin(p, a.intergraphEdges, ms.intergraphEdges, q, b.intergraphEdges);
    CopyIsWithin(p, a.intergraphHyperedges, ms.intergraphHyperedges, q, b.intergraphHyperedges);
    assert Asked(FITS);
  }

  /** All a snapshot refers to are its own objects. */
  lemma SavedIsWithin(p: Picture, a: Snapshot, ms: Memos, q: Picture, b: Snapshot)
    requires SnapCopied(p, a, ms, q, b) && ms.Fits()
    ensures b.Within(ms.made)
  {
    assert Asked(SNAP_COPIED);
    assert ms.top.Fits() && AllApart(ms.graphs) && ms.top.made <= ms.made && forall gid | gid in ms.graphs :: ms.graphs[gid].made <= ms.made by {
      assert Asked(FITS);
    }
    CopyIsWithinTop(p, a.top, ms.top, q, b.top);
    forall gid | gid in b.graphs ensures b.graphs[gid].Within(ms.made) {
      CopyIsWithinGraph(p, a.graphs[gid], ms.graphs[gid], q, b.graphs[gid]);
    }
  }

  lemma HeldAfter(mg: Metagraph, was: map<Iri, Graph>, reach: set<object>, built: set<object>)
    requires Replaced(was, mg.graphs, built) && {mg, mg.identity} + mg.TopDicts() + Footprint(was) <= reach
    ensures Held(mg) <= reach + built
  {
    assert Asked(REPLACED);
  }

  /** A capture and a restore, with any use of the metagraph in between. */
  method UseAndRestore(
    mg: Metagraph, s: Snapshot, ghost own: set<Obj>, ghost p: Picture, ghost reach: set<object>, keep: set<Iri>)
    returns (ghost ms: Memos, ghost q: Picture, ghost reach': set<object>)
    requires mg.Valid() && Held(mg) <= reach && mg.metagraphId == s.metagraphId && s.Within(own) && Kept(own, p)
    requires own + s.xrefs.Values !! reach && keep <= mg.graphs.Keys
    modifies reach
    ensures mg.Valid() && Held(mg) <= reach' && Kept(own, p) && Rows(s.xrefs) == old(Rows(s.xrefs)) && fresh(reach' - reach)
    ensures fresh(ms.made) && ms.Fits() && Kept(ms.made, q) && SnapCopied(p, s, ms, q, mg.Described())
    ensures Rows(mg.xrefs) == Rows(s.xrefs) && Inverse(Rows(mg.xrefs), mg.xrefsBySource, mg.xrefsByTarget)
    ensures s.graphs.Keys <= keep ==> SameGraphDirty(s.graphs, Describe(mg.graphs))
  {
    ghost var made := Use(mg, reach, own + s.xrefs.Values, keep);
    ghost var was := mg.graphs;
    var ok;
    ghost var built;
    ok, ms, q, built := mg.Restore(s, own, p);
    HeldAfter(mg, was, reach + made, built);
    reach' := reach + made + built + ms.made;
  }

  lemma SameIds(p: Picture, a: Snapshot, ms: Memos, q: Picture, b: Snapshot)
    requires SnapCopied(p, a, ms, q, b)
    ensures a.metagraphId == b.metagraphId && a.graphs.Keys == b.graphs.Keys
  {
    assert Asked(SNAP_COPIED);
  }

  lemma SameDirtyTwice(a: map<Iri, GraphSnap>, b: map<Iri, GraphSnap>, c: map<Iri, GraphSnap>)
    requires SameGraphDirty(a, b) && SameGraphDirty(b, c)
    ensures SameGraphDirty(a, c)
  {
    assert Asked(SAME_DIRTY);
  }

  method UseAndRestoreTwice(
    mg: Metagraph, s: Snapshot, ghost own: set<Obj>, ghost p: Picture, ghost reach: set<object>, stay: bool)
    returns (ghost ms: Memos, ghost q: Picture)
    requires mg.Valid() && Held(mg) <= reach && mg.metagraphId == s.metagraphId && s.Within(own) && Kept(own, p)
    requires own + s.xrefs.Values !! reach
    modifies reach
    ensures mg.Valid() && fresh(ms.made) && ms.Fits() && Kept(ms.made, q) && SnapCopied(p, s, ms, q, mg.Described())
    ensures Rows(mg.xrefs) == old(Rows(s.xrefs)) && Inverse(Rows(mg.xrefs), mg.xrefsBySource, mg.xrefsByTarget)
    ensures stay ==> SameGraphDirty(s.graphs, Describe(mg.graphs))
  {
    ghost var reach';
    ms, q, reach' := UseAndRestore(mg, s, own, p, reach, {});
    SameIds(p, s, ms, q, mg.Described());
    ghost var reach'';
    ms, q, reach'' := UseAndRestore(mg, s, own, p, reach', if stay then s.graphs.Keys else {});
  }

  /** A capture, any use, a restore, any use of what was restored, and a second restore of the same snapshot: all that is
      covered is as when it was captured, up to which objects hold it; and so is what was dirty, if the second use removes
      no captured graph. */
  method RoundTrip(mg: Metagraph, ghost live: set<Obj>, ghost p: Picture, ghost reach: set<object>, stay: bool)
    returns (ghost ms: Memos, ghost q: Picture)
    requires mg.Valid() && mg.Described().Within(live) && Kept(live, p) && Held(mg) <= reach
    modifies reach
    ensures mg.Valid() && fresh(ms.made) && Kept(ms.made, q) && SnapCopied(p, old(mg.Described()), ms, q, mg.Described())
    ensures Rows(mg.xrefs) == old(Rows(mg.xrefs)) && Inverse(Rows(mg.xrefs), mg.xrefsBySource, mg.xrefsByTarget)
    ensures stay ==> SameGraphDirty(old(Describe(mg.graphs)), Describe(mg.graphs))
  {
    ghost var was := mg.Described();
    var s;
    ghost var first, second, qs;
    s, first, qs := mg.Capture(live, p);
    SavedIsWithin(p, was, first, qs, s);
    SameIds(p, was, first, qs, s);
    second, q := UseAndRestoreTwice(mg, s, first.made, qs, reach, stay);
    SnapCopiedTwice(p, was, first, qs, s, second, q, mg.Described());
    if stay { SameDirtyTwice(was.graphs, s.graphs, Describe(mg.graphs)); }
    ms := ThenAll(first, second);
  }

  lemma RemovalLosesDirty(
    saved: map<Iri, GraphSnap>, was: map<Iri, GraphSnap>, now: map<Iri, GraphSnap>, gid: Iri, k: Kind, survivors: set<Iri>)
    requires SameGraphDirty(was, saved) && gid in was && gid in saved && DirtyIn(was[gid].dirty, k) != {} && gid !in survivors
    requires SameGraphDirty(saved, now) <==> NothingLost(saved, survivors)
    ensures !SameGraphDirty(was, now)
  {
    assert DirtyIn(saved[gid].dirty, k) == DirtyIn(was[gid].dirty, k) by {
      assert Asked(SAME_DIRTY);
    }
    assert DirtyIn(map[], k) == {};
    if SameGraphDirty(was, now) {
      SameDirtyBack(was, saved);
      SameDirtyTwice(saved, was, now);
    }
  }

  lemma SameDirtyBack(a: map<Iri, GraphSnap>, b: map<Iri, GraphSnap>)
    requires SameGraphDirty(a, b)
    ensures SameGraphDirty(b, a)
  {
    assert Asked(SAME_DIRTY);
  }

  /** A dirty graph is captured and removed, and the snapshot restored: all is as it was but what was dirty. */
  method RemoveAndRestore(mg: Metagraph, gid: Iri, ghost k: Kind, ghost live: set<Obj>, ghost p: Picture)
    returns (ghost ms: Memos, ghost q: Picture)
    requires mg.Valid() && mg.Described().Within(live) && Kept(live, p)
    requires gid in mg.graphs && DirtyIn(mg.graphs[gid].dirty, k) != {}
    modifies Held(mg)
    ensures SnapCopied(p, old(mg.Described()), ms, q, mg.Described()) && !SameGraphDirty(old(Describe(mg.graphs)), Describe(mg.graphs))
    ensures mg.Valid()
  {
    ghost var was := mg.Described();
    var s, ok;
    ghost var first, second, qs, built;
    s, first, qs := mg.Capture(live, p);
    SavedIsWithin(p, was, first, qs, s);
    SameIds(p, was, first, qs, s);
    StillFiled(mg.graphs, {gid});
    mg.graphs := Gone(mg.graphs, {gid});
    ghost var survivors := mg.graphs.Keys;
    ok, second, q, built := mg.Restore(s, first.made, qs);
    RemovalLosesDirty(s.graphs, was.graphs, Describe(mg.graphs), gid, k, survivors);
    SnapCopiedTwice(p, was, first, qs, s, second, q, mg.Described());
    ms := ThenAll(first, second);
  }

  method OneDirtyGraph(metagraphId: Iri, gid: Iri, edge: Iri) returns (mg: Metagraph, ghost held: set<object>)
    ensures mg.Valid() && fresh(held) && Held(mg) == held && mg.Described().Within({})
    ensures gid in mg.graphs && mg.graphs[gid].dirty == map[KindEdge := {edge}]
  {
    var g := new Graph(gid, "", None, Atom(0));
    g.dirty := map[KindEdge := {edge}];
    ghost var mine, own: set<object> := {}, {g} + g.Dicts();
    assert fresh(own);
    mg, mine := OfOneGraph(metagraphId, gid, g);
    held := mine + own;
  }

  method OfOneGraph(metagraphId: Iri, gid: Iri, g: Graph) returns (mg: Metagraph, ghost mine: set<object>)
    requires g.graphId == gid && g.Wired() && g.Described().Within({})
    ensures mg.Valid() && fresh(mine) && Held(mg) == mine + ({g} + g.Dicts())
    ensures mg.Described().Within({}) && mg.graphs == map[gid := g]
  {
    var identity := new IdentityRegistry();
    ghost var s := g.Described();
    mg := new Metagraph(metagraphId, identity);
    mg.graphs := map[gid := g];
    assert g.Described() == s;
    mine := {mg, mg.identity} + mg.TopDicts();
    OneFiled(gid, g);
  }

  lemma OneFiled(gid: Iri, g: Graph)
    requires g.graphId == gid && g.Wired()
    ensures Filed(map[gid := g]) && Footprint(map[gid := g]) == {g} + g.Dicts() && Describe(map[gid := g]) == map[gid := g.Described()]
  {
    var one := map[gid := g];
    assert gid in one && one[gid] == g;
    assert GraphObjects(one) == {g};
    forall d | d in g.Dicts() ensures d in DictsOf(one) {}
    assert DictsOf(one) == g.Dicts();
  }

  /** Such a run: a metagraph of one graph with one dirty edge. */
  method DirtyIsLost(metagraphId: Iri, gid: Iri, edge: Iri) returns (mg: Metagraph, ghost captured: map<Iri, GraphSnap>)
    ensures mg.Valid() && !SameGraphDirty(captured, Describe(mg.graphs))
    ensures gid in captured && captured[gid].dirty == map[KindEdge := {edge}]
  {
    ghost var held;
    mg, held := OneDirtyGraph(metagraphId, gid, edge);
    captured := Describe(mg.graphs);
    NothingKept();
    ghost var ms, q := RemoveAndRestore(mg, gid, KindEdge, {}, map[]);
  }

  lemma NothingKept()
    ensures Kept({}, map[])
  {}
}
