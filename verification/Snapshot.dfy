/** Snapshots of a metagraph, and its restoration in place. */
module Snapshots {
  import opened Identifiers
  import opened Identities
  import opened Folding
  import opened DeepCopies
  import opened GraphSnaps
  import opened GraphRestores
  import opened CrossReferences
  import R = Registries

  const TOP_COPIED := 12
  const SNAP_COPIED := 13
  const PARTS_COPIED := 14

  // ---- what is covered ----

  datatype TopSnap = TopSnap(
    properties: Fields, metaedges: Fields, metahyperedges: Fields, intergraphEdges: Fields, intergraphHyperedges: Fields,
    schemaName: Option<Iri>, schema: Slot)
  {
    predicate Within(s: set<Obj>) {
      && Inside(properties, s) && Inside(metaedges, s) && Inside(metahyperedges, s)
      && Inside(intergraphEdges, s) && Inside(intergraphHyperedges, s)
    }
  }

  datatype Snapshot = Snapshot(
    metagraphId: Iri, top: TopSnap, graphs: map<Iri, GraphSnap>,
    xrefs: map<Iri, XRef>, xrefsDirty: set<Iri>, softDeleteDirty: Dirty, identityIds: set<Iri>)
  {
    predicate Within(s: set<Obj>) { top.Within(s) && forall gid | gid in graphs :: graphs[gid].Within(s) }
  }

  /** What the objects of the metagraph's own dicts were copied to, and all the copies. */
  datatype TopMemos = TopMemos(properties: Memo, metaedges: Memo, metahyperedges: Memo, intergraphEdges: Memo, intergraphHyperedges: Memo, made: set<Obj>)
  {
    ghost predicate Fits() {
      forall key {:trigger Asked(key)} :: Asked(key) && key == FITS ==>
        && made == properties.Values + metaedges.Values + (metahyperedges.Values + intergraphEdges.Values) + intergraphHyperedges.Values
        && properties.Values !! metaedges.Values && metahyperedges.Values !! intergraphEdges.Values
        && properties.Values + metaedges.Values !! metahyperedges.Values + intergraphEdges.Values
        && intergraphHyperedges.Values !! properties.Values + metaedges.Values + (metahyperedges.Values + intergraphEdges.Values)
    }
  }

  ghost predicate TopCopied(p: Picture, a: TopSnap, ms: TopMemos, q: Picture, b: TopSnap) {
    forall key {:trigger Asked(key)} :: Asked(key) && key == TOP_COPIED ==>
      && a.schemaName == b.schemaName && a.schema == b.schema
      && Copied(p, a.properties, ms.properties, q, b.properties) && Copied(p, a.metaedges, ms.metaedges, q, b.metaedges)
      && Copied(p, a.metahyperedges, ms.metahyperedges, q, b.metahyperedges)
      && Copied(p, a.intergraphEdges, ms.intergraphEdges, q, b.intergraphEdges)
      && Copied(p, a.intergraphHyperedges, ms.intergraphHyperedges, q, b.intergraphHyperedges)
  }

  lemma TopCopiedInLarger(p: Picture, a: TopSnap, ms: TopMemos, q: Picture, b: TopSnap, more: Picture)
    requires TopCopied(p, a, ms, q, b) && Larger(q, more)
    ensures TopCopied(p, a, ms, more, b)
  {
    assert Asked(TOP_COPIED);
    CopiedInLarger(p, a.properties, ms.properties, q, b.properties, more);
    CopiedInLarger(p, a.metaedges, ms.metaedges, q, b.metaedges, more);
    CopiedInLarger(p, a.metahyperedges, ms.metahyperedges, q, b.metahyperedges, more);
    CopiedInLarger(p, a.intergraphEdges, ms.intergraphEdges, q, b.intergraphEdges, more);
    CopiedInLarger(p, a.intergraphHyperedges, ms.intergraphHyperedges, q, b.intergraphHyperedges, more);
  }

  /** Five copies, in one picture. */
  lemma GatherTop(p: Picture, a: TopSnap, ms: TopMemos, q1: Picture, q2: Picture, q3: Picture, b: TopSnap) returns (q: Picture)
    requires a.schemaName == b.schemaName && a.schema == b.schema && ms.Fits()
    requires Kept(ms.properties.Values + ms.metaedges.Values, q1) && Kept(ms.metahyperedges.Values + ms.intergraphEdges.Values, q2)
    requires Kept(ms.intergraphHyperedges.Values, q3)
    requires Copied(p, a.properties, ms.properties, q1, b.properties) && Copied(p, a.metaedges, ms.metaedges, q1, b.metaedges)
    requires Copied(p, a.metahyperedges, ms.metahyperedges, q2, b.metahyperedges)
    requires Copied(p, a.intergraphEdges, ms.intergraphEdges, q2, b.intergraphEdges)
    requires Copied(p, a.intergraphHyperedges, ms.intergraphHyperedges, q3, b.intergraphHyperedges)
    ensures Kept(ms.made, q) && TopCopied(p, a, ms, q, b)
  {
    var first, second := ms.properties.Values + ms.metaedges.Values, ms.metahyperedges.Values + ms.intergraphEdges.Values;
    KeptBoth(first, q1, second, q2);
    KeptBoth(first + second, q1 + q2, ms.intergraphHyperedges.Values, q3);
    q := q1 + q2 + q3;
    assert Asked(FITS);
    assert Larger(q1, q) && Larger(q2, q);
    CopiedInLarger(p, a.properties, ms.properties, q1, b.properties, q);
    CopiedInLarger(p, a.metaedges, ms.metaedges, q1, b.metaedges, q);
    CopiedInLarger(p, a.metahyperedges, ms.metahyperedges, q2, b.metahyperedges, q);
    CopiedInLarger(p, a.intergraphEdges, ms.intergraphEdges, q2, b.intergraphEdges, q);
    CopiedInLarger(p, a.intergraphHyperedges, ms.intergraphHyperedges, q3, b.intergraphHyperedges, q);
  }

  lemma TopFits(ms: TopMemos)
    requires ms.made == ms.properties.Values + ms.metaedges.Values + (ms.metahyperedges.Values + ms.intergraphEdges.Values) + ms.intergraphHyperedges.Values
    requires ms.properties.Values !! ms.metaedges.Values && ms.metahyperedges.Values !! ms.intergraphEdges.Values
    requires ms.properties.Values + ms.metaedges.Values !! ms.metahyperedges.Values + ms.intergraphEdges.Values
    requires ms.intergraphHyperedges.Values !! ms.properties.Values + ms.metaedges.Values + (ms.metahyperedges.Values + ms.intergraphEdges.Values)
    ensures ms.Fits()
  {}

  // ---- the whole ----

  datatype Memos = Memos(top: TopMemos, graphs: AllGraphMemos, made: set<Obj>)
  {
    /** Every dict copied apart from every other. */
    ghost predicate Fits() {
      forall key {:trigger Asked(key)} :: Asked(key) && key == FITS ==>
        && top.Fits() && AllApart(graphs) && top.made <= made
        && forall gid | gid in graphs :: graphs[gid].made <= made && graphs[gid].made !! top.made
    }
  }

  /** `b`, as `q` has its objects, is `a` as `p` has them: all that is covered but the cross references and what is dirty in the graphs. */
  ghost predicate SnapCopied(p: Picture, a: Snapshot, ms: Memos, q: Picture, b: Snapshot) {
    forall key {:trigger Asked(key)} :: Asked(key) && key == SNAP_COPIED ==>
      && a.metagraphId == b.metagraphId && TopCopied(p, a.top, ms.top, q, b.top) && GraphsCopied(p, a.graphs, ms.graphs, q, b.graphs)
      && a.xrefsDirty == b.xrefsDirty && SameDirty(a.softDeleteDirty, b.softDeleteDirty) && a.identityIds == b.identityIds
  }

  /** The metagraph's own dicts and its graphs. */
  ghost predicate PartsCopied(p: Picture, top: TopSnap, graphs: map<Iri, GraphSnap>, ms: Memos, q: Picture, top': TopSnap, graphs': map<Iri, GraphSnap>) {
    forall key {:trigger Asked(key)} :: Asked(key) && key == PARTS_COPIED ==>
      TopCopied(p, top, ms.top, q, top') && GraphsCopied(p, graphs, ms.graphs, q, graphs')
  }

  lemma Assemble(p: Picture, top: TopSnap, tms: TopMemos, q: Picture, top': TopSnap, w: Work) returns (ms: Memos, r: Picture)
    requires tms.Fits() && Kept(tms.made, q) && TopCopied(p, top, tms, q, top')
    requires CopiedSoFar(p, w) && Kept(w.made, w.q) && w.made !! tms.made
    ensures ms.Fits() && ms.made == tms.made + w.made && Kept(ms.made, r) && PartsCopied(p, top, w.was, ms, r, top', w.now)
  {
    ms, r := Memos(tms, w.memos, tms.made + w.made), q + w.q;
    KeptBoth(tms.made, q, w.made, w.q);
    TopCopiedInLarger(p, top, tms, q, top', r);
    SoFarInLarger(p, w, r);
    SoFarIs(p, w.(q := r));
    AssembledFits(tms, w, ms);
  }

  lemma WholeIsCopied(p: Picture, a: Snapshot, ms: Memos, q: Picture, b: Snapshot)
    requires PartsCopied(p, a.top, a.graphs, ms, q, b.top, b.graphs)
    requires a.metagraphId == b.metagraphId && a.xrefsDirty == b.xrefsDirty && a.identityIds == b.identityIds
    requires SameDirty(a.softDeleteDirty, b.softDeleteDirty)
    ensures SnapCopied(p, a, ms, q, b)
  {
    assert Asked(PARTS_COPIED);
  }

  lemma AssembledFits(tms: TopMemos, w: Work, ms: Memos)
    requires tms.Fits() && AllApart(w.memos) && w.made !! tms.made && forall gid | gid in w.memos :: w.memos[gid].made <= w.made
    requires ms == Memos(tms, w.memos, tms.made + w.made)
    ensures ms.Fits()
  {}

  // ---- the metagraph ----

  class Metagraph {
    const metagraphId: Iri
    const identity: IdentityRegistry
    const properties: Dict
    const metaedges: Dict
    const metahyperedges: Dict
    const intergraphEdges: Dict
    const intergraphHyperedges: Dict
    var graphs: map<Iri, Graph>
    var schemaName: Option<Iri>
    var schema: Slot
    var xrefs: map<Iri, XRef>
    var xrefsBySource: map<Iri, set<Iri>>
    var xrefsByTarget: map<(Iri, Iri), set<Iri>>
    var xrefsDirty: set<Iri>
    var softDeleteDirty: Dirty

    constructor (metagraphId: Iri, identity: IdentityRegistry)
      ensures this.metagraphId == metagraphId && this.identity == identity && graphs == map[] && Valid() && fresh(TopDicts())
      ensures DescribedTop() == TopSnap(map[], map[], map[], map[], map[], None, Atom(0))
    {
      this.metagraphId, this.identity := metagraphId, identity;
      properties := new Dict(None, Properties);
      metaedges := new Dict(None, MetaEdges);
      metahyperedges := new Dict(None, MetaHyperEdges);
      intergraphEdges := new Dict(None, IntergraphEdges);
      intergraphHyperedges := new Dict(None, IntergraphHyperEdges);
      graphs, schemaName, schema := map[], None, Atom(0);
      xrefs, xrefsBySource, xrefsByTarget, xrefsDirty, softDeleteDirty := map[], map[], map[], {}, map[];
    }

    ghost predicate Wired() {
      && properties.owner == metaedges.owner == metahyperedges.owner == intergraphEdges.owner == intergraphHyperedges.owner == None
      && properties.name == Properties && metaedges.name == MetaEdges && metahyperedges.name == MetaHyperEdges
      && intergraphEdges.name == IntergraphEdges && intergraphHyperedges.name == IntergraphHyperEdges
    }

    ghost predicate Valid()
      reads `graphs
    {
      Wired() && Filed(graphs)
    }

    ghost function TopDicts(): set<Dict> { {properties, metaedges, metahyperedges, intergraphEdges, intergraphHyperedges} }

    ghost function DescribedTop(): TopSnap
      reads `schemaName, `schema, TopDicts()
    {
      TopSnap(properties.items, metaedges.items, metahyperedges.items, intergraphEdges.items, intergraphHyperedges.items, schemaName, schema)
    }

    method CaptureTop(ghost live: set<Obj>, ghost p: Picture) returns (s: TopSnap, ghost ms: TopMemos, ghost q: Picture)
      requires DescribedTop().Within(live) && Kept(live, p)
      ensures fresh(ms.made) && ms.Fits() && Kept(ms.made, q) && TopCopied(p, DescribedTop(), ms, q, s)
    {
      ghost var q1, q2, q3, mp, me, mh, mi;
      var b, e, h, i;
      b, mp, e, me, q1 := CopyTwo(properties.items, metaedges.items, live, p);
      h, mh, i, mi, q2 := CopyTwo(metahyperedges.items, intergraphEdges.items, live, p);
      var j, mj;
      j, mj, q3 := DeepCopy(intergraphHyperedges.items, live, p);
      s := TopSnap(b, e, h, i, j, schemaName, schema);
      ms := TopMemos(mp, me, mh, mi, mj, mp.Values + me.Values + (mh.Values + mi.Values) + mj.Values);
      TopFits(ms);
      q := GatherTop(p, DescribedTop(), ms, q1, q2, q3, s);
    }

    method RefillTop(s: TopSnap, ghost own: set<Obj>, ghost p: Picture)
      returns (ghost ms: TopMemos, ghost q1: Picture, ghost q2: Picture, ghost q3: Picture)
      requires Wired() && s.Within(own) && Kept(own, p)
      modifies TopDicts()
      ensures fresh(ms.properties.Values + ms.metaedges.Values) && fresh(ms.metahyperedges.Values + ms.intergraphEdges.Values)
      ensures fresh(ms.intergraphHyperedges.Values) && ms.Fits()
      ensures Kept(ms.properties.Values + ms.metaedges.Values, q1) && Kept(ms.metahyperedges.Values + ms.intergraphEdges.Values, q2)
      ensures Kept(ms.intergraphHyperedges.Values, q3)
      ensures Copied(p, s.properties, ms.properties, q1, properties.items) && Copied(p, s.metaedges, ms.metaedges, q1, metaedges.items)
      ensures Copied(p, s.metahyperedges, ms.metahyperedges, q2, metahyperedges.items)
      ensures Copied(p, s.intergraphEdges, ms.intergraphEdges, q2, intergraphEdges.items)
      ensures Copied(p, s.intergraphHyperedges, ms.intergraphHyperedges, q3, intergraphHyperedges.items)
    {
      ghost var mp, me, mh, mi, mj;
      mp, me, q1 := RefillTwo(properties, metaedges, s.properties, s.metaedges, own, p, {});
      ghost var first := mp.Values + me.Values;
      mh, mi, q2 := RefillTwo(metahyperedges, intergraphEdges, s.metahyperedges, s.intergraphEdges, own, p, first);
      ghost var second := mh.Values + mi.Values;
      mj, q3 := intergraphHyperedges.Refill(s.intergraphHyperedges, own, p, first + second);
      ms := TopMemos(mp, me, mh, mi, mj, first + second + mj.Values);
      TopFits(ms);
    }

    method RestoreTop(s: TopSnap, ghost own: set<Obj>, ghost p: Picture, ghost at: set<object>)
      returns (ghost ms: TopMemos, ghost q: Picture)
      requires Wired() && s.Within(own) && Kept(own, p) && this !in at && TopDicts() !! at
      modifies `schemaName, `schema, TopDicts()
      ensures unchanged(at)
      ensures fresh(ms.made) && ms.Fits() && Kept(ms.made, q) && TopCopied(p, s, ms, q, DescribedTop())
    {
      schemaName, schema := s.schemaName, s.schema;
      ghost var q1, q2, q3;
      ms, q1, q2, q3 := RefillTop(s, own, p);
      q := GatherTop(p, s, ms, q1, q2, q3, DescribedTop());
      assert Asked(FITS);
    }

    /** The metagraph as it is, by reference. */
    ghost function Described(): Snapshot
      reads this, identity, TopDicts(), Footprint(graphs)
    {
      Snapshot(metagraphId, DescribedTop(), Describe(graphs), xrefs, xrefsDirty, softDeleteDirty, identity.ids)
    }

    method CaptureParts(ghost live: set<Obj>, ghost p: Picture)
      returns (top: TopSnap, saved: map<Iri, GraphSnap>, ghost ms: Memos, ghost q: Picture)
      requires Valid() && Described().Within(live) && Kept(live, p)
      ensures fresh(ms.made) && ms.Fits() && Kept(ms.made, q) && PartsCopied(p, DescribedTop(), Describe(graphs), ms, q, top, saved)
      ensures SameGraphDirty(Describe(graphs), saved)
    {
      ghost var w, tms, qt;
      ghost var was := Describe(graphs);
      assert forall gid | gid in graphs :: was[gid] == Described().graphs[gid];
      saved, w := CaptureGraphs(graphs, was, live, p);
      top, tms, qt := CaptureTop(live, p);
      ms, q := Assemble(p, DescribedTop(), tms, qt, top, w);
    }

    /** `of`: everything covered is copied, into objects that are all new. */
    method Capture(ghost live: set<Obj>, ghost p: Picture) returns (s: Snapshot, ghost ms: Memos, ghost q: Picture)
      requires Valid() && Described().Within(live) && Kept(live, p)
      ensures fresh(ms.made) && ms.Fits() && Kept(ms.made, q) && SnapCopied(p, old(Described()), ms, q, s)
      ensures fresh(s.xrefs.Values) && Rows(s.xrefs) == old(Rows(xrefs)) && SameGraphDirty(old(Describe(graphs)), s.graphs)
    {
      var copies := CopyRows(xrefs);
      var top, saved;
      top, saved, ms, q := CaptureParts(live, p);
      s := Snapshot(metagraphId, top, saved, copies, xrefsDirty, softDeleteDirty, identity.ids);
      WholeIsCopied(p, Described(), ms, q, s);
    }

    method RestoreXRefs(s: Snapshot)
      modifies `xrefs, `xrefsBySource, `xrefsByTarget, `xrefsDirty, `softDeleteDirty
      ensures fresh(xrefs.Values) && Rows(xrefs) == old(Rows(s.xrefs)) && Inverse(old(Rows(s.xrefs)), xrefsBySource, xrefsByTarget)
      ensures xrefsDirty == s.xrefsDirty && SameDirty(softDeleteDirty, s.softDeleteDirty)
    {
      xrefs, xrefsBySource, xrefsByTarget := Reindex(s.xrefs);
      xrefsDirty := s.xrefsDirty;
      softDeleteDirty := Refilled(softDeleteDirty, s.softDeleteDirty);
    }

    /** The shared registry cleared in place, and every captured id registered again. */
    method RegisterOnly(ids: set<Iri>)
      modifies identity
      ensures identity.ids == ids
    {
      identity.Clear();
      var todo := ids;
      while todo != {}
        invariant todo <= ids && identity.ids == ids - todo
        decreases todo
      {
        var id :| id in todo;
        todo := todo - {id};
        var isNew := identity.Register(id);
      }
    }

    lemma TopElsewhere(others: map<Iri, Graph>)
      requires Wired() && Filed(others)
      ensures TopDicts() !! Footprint(others) && this !in Footprint(others)
    {
      assert Asked(FILED);
    }

    method ReplaceGraphs(saved: map<Iri, GraphSnap>, ghost own: set<Obj>, ghost p: Picture)
      returns (ghost w: Work, ghost built: set<object>)
      requires Valid() && Kept(own, p) && forall gid | gid in saved :: saved[gid].Within(own)
      modifies `graphs, Footprint(graphs)
      ensures Valid() && fresh(w.made) && Kept(w.made, w.q) && CopiedSoFar(p, w) && w.was == saved
      ensures AsDescribed(Footprint(graphs), graphs, w.now) && DirtyWhere(saved, w.now, old(graphs).Keys)
      ensures graphs.Keys == saved.Keys && Replaced(old(graphs), graphs, built) && fresh(built) && Kept(own, p)
    {
      var restored;
      restored, w, built := RestoreGraphs(graphs, saved, own, p);
      TopElsewhere(restored);
      ghost var at := Footprint(restored);
      graphs := restored;
      assert AsDescribed(at, restored, w.now);
    }

    /** The metagraph's own dicts, after the graphs. */
    method RestoreTopToo(s: TopSnap, ghost own: set<Obj>, ghost p: Picture, ghost w: Work, ghost at: set<object>)
      returns (ghost ms: Memos, ghost q: Picture)
      requires Wired() && s.Within(own) && Kept(own, p) && this !in at && TopDicts() !! at && CopiedSoFar(p, w) && Kept(w.made, w.q)
      modifies `schemaName, `schema, TopDicts()
      ensures unchanged(at) && fresh(ms.made - w.made) && ms.Fits() && Kept(ms.made, q)
      ensures PartsCopied(p, s, w.was, ms, q, DescribedTop(), w.now)
    {
      ghost var tms, qt := RestoreTop(s, own, p, at + w.made);
      ms, q := Assemble(p, s, tms, qt, DescribedTop(), w);
    }

    /** The graphs, then the metagraph's own dicts. */
    method RestoreParts(s: Snapshot, ghost own: set<Obj>, ghost p: Picture)
      returns (ghost ms: Memos, ghost q: Picture, ghost now: map<Iri, GraphSnap>, ghost built: set<object>)
      requires Valid() && s.Within(own) && Kept(own, p)
      modifies `graphs, `schemaName, `schema, TopDicts(), Footprint(graphs)
      ensures Valid() && fresh(ms.made) && ms.Fits() && Kept(ms.made, q) && PartsCopied(p, s.top, s.graphs, ms, q, DescribedTop(), now)
      ensures AsDescribed(Footprint(graphs), graphs, now) && DirtyWhere(s.graphs, now, old(graphs).Keys)
      ensures graphs.Keys == s.graphs.Keys && Replaced(old(graphs), graphs, built) && fresh(built) && Kept(own, p)
    {
      ghost var w;
      w, built := ReplaceGraphs(s.graphs, own, p);
      TopElsewhere(graphs);
      ghost var at := Footprint(graphs);
      ms, q := RestoreTopToo(s.top, own, p, w, at + own);
      now := w.now;
    }

    /** The cross references, what is dirty and the registry. */
    method RestoreRest(s: Snapshot, ghost at: set<object>, ghost others: set<object>)
      requires this !in at + others && identity !in at + others
      modifies identity, `xrefs, `xrefsBySource, `xrefsByTarget, `xrefsDirty, `softDeleteDirty
      ensures unchanged(at) && unchanged(others)
      ensures fresh(xrefs.Values) && Rows(xrefs) == old(Rows(s.xrefs)) && Inverse(old(Rows(s.xrefs)), xrefsBySource, xrefsByTarget)
      ensures xrefsDirty == s.xrefsDirty && SameDirty(softDeleteDirty, s.softDeleteDirty) && identity.ids == s.identityIds
    {
      RestoreXRefs(s);
      RegisterOnly(s.identityIds);
    }

    lemma RestElsewhere(objs: set<Obj>, refs: set<XRef>)
      ensures this !in Footprint(graphs) + TopDicts() + objs + refs && identity !in Footprint(graphs) + TopDicts() + objs + refs
    {}

    /** No cross reference changes meanwhile. */
    method RestorePartsApart(s: Snapshot, ghost own: set<Obj>, ghost p: Picture)
      returns (ghost ms: Memos, ghost q: Picture, ghost now: map<Iri, GraphSnap>, ghost built: set<object>)
      requires Valid() && s.Within(own) && Kept(own, p)
      modifies `graphs, `schemaName, `schema, TopDicts(), Footprint(graphs)
      ensures Valid() && fresh(ms.made) && ms.Fits() && Kept(ms.made, q) && PartsCopied(p, s.top, s.graphs, ms, q, DescribedTop(), now)
      ensures AsDescribed(Footprint(graphs), graphs, now) && DirtyWhere(s.graphs, now, old(graphs).Keys)
      ensures Replaced(old(graphs), graphs, built) && fresh(built) && Rows(s.xrefs) == old(Rows(s.xrefs)) && Kept(own, p)
    {
      ghost var refs: set<object> := s.xrefs.Values;
      RefsElsewhere(s.xrefs.Values);
      ms, q, now, built := RestoreParts(s, own, p);
      assert unchanged(refs);
    }

    lemma RefsElsewhere(refs: set<XRef>)
      ensures forall x: object | x in refs :: x !in Footprint(graphs) && x !in TopDicts() && x != this
    {}

    /** As the snapshot has it, for the same metagraph. */
    method RestoreAll(s: Snapshot, ghost own: set<Obj>, ghost p: Picture)
      returns (ghost ms: Memos, ghost q: Picture, ghost built: set<object>)
      requires Valid() && s.Within(own) && Kept(own, p) && metagraphId == s.metagraphId
      modifies this, identity, TopDicts(), Footprint(graphs)
      ensures Valid() && fresh(ms.made) && ms.Fits() && Kept(ms.made, q) && SnapCopied(p, s, ms, q, Described())
      ensures fresh(xrefs.Values) && Rows(xrefs) == old(Rows(s.xrefs)) && Inverse(old(Rows(s.xrefs)), xrefsBySource, xrefsByTarget)
      ensures Replaced(old(graphs), graphs, built) && fresh(built) && Kept(own, p) && Rows(s.xrefs) == old(Rows(s.xrefs))
      ensures DirtyWhere(s.graphs, Describe(graphs), old(graphs).Keys)
    {
      ghost var now;
      ms, q, now, built := RestorePartsApart(s, own, p);
      ghost var at := Footprint(graphs);
      RestElsewhere(ms.made + own, s.xrefs.Values);
      RestoreRest(s, at, TopDicts() + (ms.made + own) + s.xrefs.Values);
      Summed(s, p, ms, q, now);
    }

    lemma Summed(s: Snapshot, p: Picture, ms: Memos, q: Picture, now: map<Iri, GraphSnap>)
      requires PartsCopied(p, s.top, s.graphs, ms, q, DescribedTop(), now) && AsDescribed(Footprint(graphs), graphs, now)
      requires metagraphId == s.metagraphId && xrefsDirty == s.xrefsDirty
      requires SameDirty(softDeleteDirty, s.softDeleteDirty) && identity.ids == s.identityIds
      ensures SnapCopied(p, s, ms, q, Described()) && now == Describe(graphs)
    {
      assert Asked(AS_DESCRIBED);
      WholeIsCopied(p, s, ms, q, Described());
    }

    /** `restore_into`: whatever was done since, all that is covered is again as in the snapshot, in objects that are all
        new, under the same dicts and the same registry; a graph still there is the same object; and the inverse indexes
        have exactly the cross references there are. In the graphs built anew, and only there, what was dirty is not. */
    method Restore(s: Snapshot, ghost own: set<Obj>, ghost p: Picture)
      returns (ok: bool, ghost ms: Memos, ghost q: Picture, ghost built: set<object>)
      requires Valid() && s.Within(own) && Kept(own, p)
      modifies this, identity, TopDicts(), Footprint(graphs)
      ensures Valid() && (ok <==> metagraphId == s.metagraphId)
      ensures Kept(own, p) && Rows(s.xrefs) == old(Rows(s.xrefs))
      ensures !ok ==> unchanged(this) && unchanged(identity) && unchanged(TopDicts()) && unchanged(old(Footprint(graphs)))
      ensures ok ==> fresh(ms.made) && ms.Fits() && Kept(ms.made, q) && SnapCopied(p, s, ms, q, Described())
      ensures ok ==> fresh(xrefs.Values) && Rows(xrefs) == Rows(s.xrefs) && Inverse(Rows(xrefs), xrefsBySource, xrefsByTarget)
      ensures ok ==> Replaced(old(graphs), graphs, built) && fresh(built)
      ensures ok ==> DirtyWhere(s.graphs, Describe(graphs), old(graphs).Keys)
      ensures ok ==> (SameGraphDirty(s.graphs, Describe(graphs)) <==> NothingLost(s.graphs, old(graphs).Keys))
    {
      ok := metagraphId == s.metagraphId;
      ms, q, built := Memos(TopMemos(map[], map[], map[], map[], map[], {}), map[], {}), map[], {};
      if ok {
        ms, q, built := RestoreAll(s, own, p);
        DirtyExactly(s.graphs, Describe(graphs), old(graphs).Keys);
      }
    }
  }
}
