/** All the graphs of a metagraph captured, and restored in place or built anew. */
module GraphRestores {
  import opened Identifiers
  import opened Folding
  import opened DeepCopies
  import opened GraphSnaps

  const COPIED_SO_FAR := 5
  const AS_DESCRIBED := 6
  const SAME_DIRTY := 7
  const IN_PROGRESS := 8
  const DIRTY_WHERE := 9
  const FILED := 10
  const REPLACED := 11

  type AllGraphMemos = map<Iri, GraphMemos>

  /** Four separate copies for each graph, and none shared between graphs. */
  ghost predicate AllApart(memos: AllGraphMemos) {
    && (forall gid | gid in memos :: memos[gid].Fits())
    && forall a, b | a in memos && b in memos && a != b :: memos[a].made !! memos[b].made
  }

  ghost predicate GraphsCopied(p: Picture, a: map<Iri, GraphSnap>, memos: AllGraphMemos, q: Picture, b: map<Iri, GraphSnap>) {
    a.Keys == b.Keys == memos.Keys && forall gid | gid in a :: GraphCopied(p, a[gid], memos[gid], q, b[gid])
  }

  /** The graphs gone through so far: what they were, what they were copied to, and the copies with their picture. */
  datatype Work = Work(was: map<Iri, GraphSnap>, memos: AllGraphMemos, made: set<Obj>, q: Picture, now: map<Iri, GraphSnap>)
  {
    function With(gid: Iri, s: GraphSnap, ms: GraphMemos, q': Picture, t: GraphSnap): Work {
      Work(was[gid := s], memos[gid := ms], made + ms.made, q + q', now[gid := t])
    }
  }

  const NOTHING_YET := Work(map[], map[], {}, map[], map[])

  /** All copied, apart. */
  ghost predicate CopiedSoFar(p: Picture, w: Work) {
    forall key {:trigger Asked(key)} :: Asked(key) && key == COPIED_SO_FAR ==>
      GraphsCopied(p, w.was, w.memos, w.q, w.now) && AllApart(w.memos) && forall gid | gid in w.memos :: w.memos[gid].made <= w.made
  }

  lemma SoFarInLarger(p: Picture, w: Work, more: Picture)
    requires CopiedSoFar(p, w) && Larger(w.q, more)
    ensures CopiedSoFar(p, w.(q := more))
  {
    assert Asked(COPIED_SO_FAR);
    forall g | g in w.was ensures GraphCopied(p, w.was[g], w.memos[g], more, w.now[g]) {
      GraphCopiedInLarger(p, w.was[g], w.memos[g], w.q, w.now[g], more);
    }
  }

  lemma SoFarMore(p: Picture, w: Work, gid: Iri, s: GraphSnap, ms: GraphMemos, t: GraphSnap)
    requires CopiedSoFar(p, w) && gid !in w.was && GraphCopied(p, s, ms, w.q, t) && ms.Fits() && ms.made !! w.made
    ensures CopiedSoFar(p, Work(w.was[gid := s], w.memos[gid := ms], w.made + ms.made, w.q, w.now[gid := t]))
  {
    assert Asked(COPIED_SO_FAR);
  }

  /** One graph more. */
  lemma OneMore(p: Picture, w: Work, gid: Iri, s: GraphSnap, ms: GraphMemos, q': Picture, t: GraphSnap)
    requires CopiedSoFar(p, w) && Kept(w.made, w.q) && gid !in w.was
    requires GraphCopied(p, s, ms, q', t) && Kept(ms.made, q') && ms.Fits() && ms.made !! w.made
    ensures CopiedSoFar(p, w.With(gid, s, ms, q', t)) && Kept(w.made + ms.made, w.q + q')
  {
    KeptBoth(w.made, w.q, ms.made, q');
    GraphCopiedInLarger(p, s, ms, q', t, w.q + q');
    SoFarInLarger(p, w, w.q + q');
    SoFarMore(p, w.(q := w.q + q'), gid, s, ms, t);
  }

  // ---- the graphs of a metagraph ----

  /** A graph is filed under its own id, with dicts of its own. */
  ghost predicate Filed(graphs: map<Iri, Graph>) {
    forall key {:trigger Asked(key)} :: Asked(key) && key == FILED ==>
      forall gid | gid in graphs :: graphs[gid].graphId == gid && graphs[gid].Wired()
  }

  lemma FiledAt(graphs: map<Iri, Graph>, gid: Iri)
    requires Filed(graphs) && gid in graphs
    ensures graphs[gid].graphId == gid && graphs[gid].Wired()
  {
    assert Asked(FILED);
  }

  ghost function GraphObjects(graphs: map<Iri, Graph>): set<Graph> { set gid | gid in graphs :: graphs[gid] }

  ghost function DictsOf(graphs: map<Iri, Graph>): set<Dict> { set gid, d | gid in graphs && d in graphs[gid].Dicts() :: d }

  ghost function Describe(graphs: map<Iri, Graph>): map<Iri, GraphSnap>
    reads GraphObjects(graphs), DictsOf(graphs)
  {
    map gid | gid in graphs :: graphs[gid].Described()
  }

  /** What is dirty in each graph. */
  ghost predicate SameGraphDirty(a: map<Iri, GraphSnap>, b: map<Iri, GraphSnap>) {
    forall key {:trigger Asked(key)} :: Asked(key) && key == SAME_DIRTY ==>
      a.Keys == b.Keys && forall gid | gid in a :: SameDirty(a[gid].dirty, b[gid].dirty)
  }

  lemma DirtyMore(a: map<Iri, GraphSnap>, b: map<Iri, GraphSnap>, gid: Iri, s: GraphSnap, t: GraphSnap)
    requires SameGraphDirty(a, b) && SameDirty(s.dirty, t.dirty)
    ensures SameGraphDirty(a[gid := s], b[gid := t])
  {
    assert Asked(SAME_DIRTY);
  }

  ghost function Footprint(graphs: map<Iri, Graph>): set<object> { GraphObjects(graphs) + DictsOf(graphs) }

  /** The dicts of one graph are no other's. */
  lemma Elsewhere(graphs: map<Iri, Graph>, g: Graph)
    requires Filed(graphs) && g.Wired() && g.graphId !in graphs
    ensures g !in Footprint(graphs) && g.Dicts() !! Footprint(graphs)
    ensures Filed(graphs[g.graphId := g]) && Footprint(graphs[g.graphId := g]) == Footprint(graphs) + {g} + g.Dicts()
  {
    assert Asked(FILED);
    var more := graphs[g.graphId := g];
    assert forall gid | gid in graphs :: more[gid] == graphs[gid];
    assert more[g.graphId] == g;
  }

  /** These are descriptions of the graphs as they are; all that is read is in `at`. */
  ghost predicate AsDescribed(at: set<object>, graphs: map<Iri, Graph>, snaps: map<Iri, GraphSnap>)
    reads at
  {
    forall key {:trigger Asked(key)} :: Asked(key) && key == AS_DESCRIBED ==> at == Footprint(graphs) && snaps == Describe(graphs)
  }

  lemma DescribedMore(graphs: map<Iri, Graph>, snaps: map<Iri, GraphSnap>, g: Graph)
    requires Filed(graphs) && g.Wired() && g.graphId !in graphs && AsDescribed(Footprint(graphs), graphs, snaps)
    ensures AsDescribed(Footprint(graphs) + {g} + g.Dicts(), graphs[g.graphId := g], snaps[g.graphId := g.Described()])
  {
    Elsewhere(graphs, g);
    assert Asked(AS_DESCRIBED);
  }

  /** A graph captured; nothing else changes. */
  method SnapApart(g: Graph, ghost live: set<Obj>, ghost p: Picture, ghost at: set<object>)
    returns (s: GraphSnap, ghost ms: GraphMemos, ghost q: Picture)
    requires g.Described().Within(live) && Kept(live, p)
    ensures fresh(ms.made) && ms.Fits() && Kept(ms.made, q) && unchanged(at) && Kept(live, p)
    ensures GraphCopied(p, old(g.Described()), ms, q, s) && g.Described() == old(g.Described()) && s.dirty == g.dirty
  {
    s, ms, q := g.Snap(live, p);
  }

  method CaptureOne(
    ghost done: map<Iri, Graph>, g: Graph, ghost live: set<Obj>, ghost p: Picture, ghost w: Work, ghost others: set<object>)
    returns (s: GraphSnap, ghost w': Work)
    requires Filed(done) && g.Wired() && g.graphId !in done && g.graphId !in w.was && Kept(live, p) && g.Described().Within(live)
    requires CopiedSoFar(p, w) && Kept(w.made, w.q) && AsDescribed(Footprint(done), done, w.was) && SameGraphDirty(w.was, w.now)
    ensures CopiedSoFar(p, w') && Kept(w'.made, w'.q)
    ensures AsDescribed(Footprint(done) + {g} + g.Dicts(), done[g.graphId := g], w'.was) && SameGraphDirty(w'.was, w'.now)
    ensures fresh(w'.made - w.made) && w'.was.Keys == w.was.Keys + {g.graphId} && w'.now == w.now[g.graphId := s]
    ensures unchanged(others) && Kept(live, p)
  {
    ghost var ms, q';
    ghost var at := Footprint(done);
    s, ms, q' := SnapApart(g, live, p, at + w.made + others);
    w' := w.With(g.graphId, g.Described(), ms, q', s);
    OneMore(p, w, g.graphId, g.Described(), ms, q', s);
    DescribedMore(done, w.was, g);
    DirtyMore(w.was, w.now, g.graphId, g.Described(), s);
  }

  /** A survivor restored; nothing of the others changes. */
  method RestoreApart(g: Graph, s: GraphSnap, ghost own: set<Obj>, ghost p: Picture, ghost at: set<object>)
    returns (ghost ms: GraphMemos, ghost q: Picture)
    requires g.Wired() && s.Within(own) && Kept(own, p) && g !in at && g.Dicts() !! at
    modifies g, g.Dicts()
    ensures fresh(ms.made) && ms.Fits() && Kept(ms.made, q)
    ensures GraphCopied(p, s, ms, q, g.Described()) && SameDirty(g.dirty, s.dirty) && unchanged(at) && Kept(own, p)
  {
    ms, q := g.Restore(s, own, p);
  }

  method RestoreOne(ghost done: map<Iri, Graph>, g: Graph, s: GraphSnap, ghost own: set<Obj>, ghost p: Picture, ghost w: Work)
    returns (ghost w': Work)
    requires Filed(done) && g.Wired() && g.graphId !in done && g.graphId !in w.was && Kept(own, p) && s.Within(own)
    requires CopiedSoFar(p, w) && Kept(w.made, w.q) && AsDescribed(Footprint(done), done, w.now) && SameGraphDirty(w.was, w.now)
    modifies g, g.Dicts()
    ensures CopiedSoFar(p, w') && Kept(w'.made, w'.q)
    ensures AsDescribed(Footprint(done) + {g} + g.Dicts(), done[g.graphId := g], w'.now) && SameGraphDirty(w'.was, w'.now)
    ensures fresh(w'.made - w.made) && w'.was == w.was[g.graphId := s] && Kept(own, p)
  {
    Elsewhere(done, g);
    ghost var at := Footprint(done);
    ghost var ms, q' := RestoreApart(g, s, own, p, at + w.made);
    w' := w.With(g.graphId, s, ms, q', g.Described());
    OneMore(p, w, g.graphId, s, ms, q', g.Described());
    assert AsDescribed(at, done, w.now);
    DescribedMore(done, w.now, g);
    DirtyMore(w.was, w.now, g.graphId, s, g.Described());
  }

  method RebuildOne(ghost done: map<Iri, Graph>, gid: Iri, s: GraphSnap, ghost own: set<Obj>, ghost p: Picture, ghost w: Work)
    returns (g: Graph, ghost w': Work)
    requires Filed(done) && gid !in done && gid !in w.was && Kept(own, p) && s.Within(own)
    requires CopiedSoFar(p, w) && Kept(w.made, w.q) && AsDescribed(Footprint(done), done, w.now)
    ensures CopiedSoFar(p, w') && Kept(w'.made, w'.q) && AsDescribed(Footprint(done) + {g} + g.Dicts(), done[gid := g], w'.now)
    ensures fresh(w'.made - w.made) && w'.was == w.was[gid := s]
    ensures fresh(g) && fresh(g.Dicts()) && g.graphId == gid && g.Wired() && w'.now == w.now[gid := g.Described()] && g.dirty == map[]
  {
    ghost var ms, q';
    g, ms, q' := Rebuilt(gid, s, own, p);
    w' := w.With(gid, s, ms, q', g.Described());
    OneMore(p, w, gid, s, ms, q', g.Described());
    DescribedMore(done, w.now, g);
  }

  lemma NoneDone(p: Picture)
    ensures CopiedSoFar(p, NOTHING_YET) && Kept({}, map[]) && AsDescribed({}, map[], map[]) && SameGraphDirty(map[], map[])
  {}

  /** The graphs gone through so far, with what was made of them. */
  ghost predicate Doing(graphs: map<Iri, Graph>, done: map<Iri, Graph>, todo: set<Iri>, p: Picture, w: Work) {
    && todo <= graphs.Keys && done.Keys == w.was.Keys == graphs.Keys - todo && Filed(done)
    && CopiedSoFar(p, w) && forall gid | gid in done :: done[gid] == graphs[gid]
  }

  lemma DoneMore(graphs: map<Iri, Graph>, done: map<Iri, Graph>, todo: set<Iri>, p: Picture, w: Work, gid: Iri, w': Work)
    requires Filed(graphs) && Doing(graphs, done, todo, p, w) && gid in todo && CopiedSoFar(p, w') && w'.was.Keys == w.was.Keys + {gid}
    ensures Doing(graphs, done[gid := graphs[gid]], todo - {gid}, p, w')
    ensures Footprint(done[gid := graphs[gid]]) == Footprint(done) + {graphs[gid]} + graphs[gid].Dicts()
  {
    FiledAt(graphs, gid);
    Elsewhere(done, graphs[gid]);
  }

  lemma AllDone(graphs: map<Iri, Graph>, done: map<Iri, Graph>, p: Picture, w: Work, snaps: map<Iri, GraphSnap>)
    requires Doing(graphs, done, {}, p, w) && AsDescribed(Footprint(done), done, snaps)
    ensures done == graphs && snaps == Describe(graphs)
  {
    assert Asked(AS_DESCRIBED);
    assert done == graphs;
  }

  /** What was gone through is what was saved. */
  ghost predicate Took(saved: map<Iri, GraphSnap>, w: Work) {
    w.was.Keys <= saved.Keys && forall gid | gid in w.was :: w.was[gid] == saved[gid]
  }

  lemma TookMore(saved: map<Iri, GraphSnap>, w: Work, gid: Iri, w': Work)
    requires Took(saved, w) && gid in saved && w'.was == w.was[gid := saved[gid]]
    ensures Took(saved, w') && w'.was.Keys == w.was.Keys + {gid}
  {}

  lemma TookAll(saved: map<Iri, GraphSnap>, w: Work)
    requires Took(saved, w) && w.was.Keys == saved.Keys
    ensures w.was == saved
  {}

  ghost predicate Capturing(graphs: map<Iri, Graph>, done: map<Iri, Graph>, todo: set<Iri>, saved: map<Iri, GraphSnap>, p: Picture, w: Work) {
    forall key {:trigger Asked(key)} :: Asked(key) && key == IN_PROGRESS ==>
      Doing(graphs, done, todo, p, w) && w.now == saved && SameGraphDirty(w.was, w.now) && Filed(graphs)
  }

  lemma CapturingBegins(graphs: map<Iri, Graph>, p: Picture)
    requires Filed(graphs)
    ensures Capturing(graphs, map[], graphs.Keys, map[], p, NOTHING_YET)
    ensures Kept({}, map[]) && AsDescribed(Footprint(map[]), map[], map[])
  {
    NoneDone(p);
  }

  lemma CapturingIs(
    graphs: map<Iri, Graph>, done: map<Iri, Graph>, todo: set<Iri>, saved: map<Iri, GraphSnap>, p: Picture, w: Work)
    requires Capturing(graphs, done, todo, saved, p, w)
    ensures Doing(graphs, done, todo, p, w) && SameGraphDirty(w.was, w.now) && Filed(graphs)
  {
    assert Asked(IN_PROGRESS);
  }

  lemma CapturingMore(
    graphs: map<Iri, Graph>, done: map<Iri, Graph>, todo: set<Iri>, saved: map<Iri, GraphSnap>, p: Picture, w: Work, gid: Iri, s: GraphSnap, w': Work)
    requires Capturing(graphs, done, todo, saved, p, w) && gid in todo && gid in graphs
    requires CopiedSoFar(p, w') && SameGraphDirty(w'.was, w'.now) && w'.was.Keys == w.was.Keys + {gid} && w'.now == w.now[gid := s]
    ensures Capturing(graphs, done[gid := graphs[gid]], todo - {gid}, saved[gid := s], p, w')
    ensures Footprint(done[gid := graphs[gid]]) == Footprint(done) + {graphs[gid]} + graphs[gid].Dicts()
  {
    assert Asked(IN_PROGRESS);
    DoneMore(graphs, done, todo, p, w, gid, w');
  }

  lemma CapturingEnds(graphs: map<Iri, Graph>, done: map<Iri, Graph>, saved: map<Iri, GraphSnap>, p: Picture, w: Work)
    requires Capturing(graphs, done, {}, saved, p, w) && AsDescribed(Footprint(done), done, w.was)
    ensures CopiedSoFar(p, w) && w.was == Describe(graphs) && w.now == saved && SameGraphDirty(w.was, w.now)
  {
    assert Asked(IN_PROGRESS);
    AllDone(graphs, done, p, w, w.was);
  }

  lemma DescribedAt(graphs: map<Iri, Graph>, snaps: map<Iri, GraphSnap>, gid: Iri)
    requires AsDescribed(Footprint(graphs), graphs, snaps) && gid in graphs
    ensures gid in snaps && snaps[gid] == graphs[gid].Described()
  {
    assert Asked(AS_DESCRIBED);
  }

  method CaptureNext(
    graphs: map<Iri, Graph>, ghost done: map<Iri, Graph>, ghost todo: set<Iri>, gid: Iri, saved: map<Iri, GraphSnap>,
    ghost was: map<Iri, GraphSnap>, ghost live: set<Obj>, ghost p: Picture, ghost w: Work) returns (s: GraphSnap, ghost w': Work)
    requires Capturing(graphs, done, todo, saved, p, w) && gid in todo && gid in graphs && gid in was && was[gid].Within(live)
    requires AsDescribed(Footprint(done), done, w.was) && AsDescribed(Footprint(graphs), graphs, was) && Kept(live, p) && Kept(w.made, w.q)
    ensures Capturing(graphs, done[gid := graphs[gid]], todo - {gid}, saved[gid := s], p, w')
    ensures AsDescribed(Footprint(done[gid := graphs[gid]]), done[gid := graphs[gid]], w'.was)
    ensures Kept(w'.made, w'.q) && fresh(w'.made - w.made) && AsDescribed(Footprint(graphs), graphs, was) && Kept(live, p)
  {
    CapturingIs(graphs, done, todo, saved, p, w);
    FiledAt(graphs, gid);
    DescribedAt(graphs, was, gid);
    ghost var at := Footprint(graphs);
    s, w' := CaptureOne(done, graphs[gid], live, p, w, at);
    CapturingMore(graphs, done, todo, saved, p, w, gid, s, w');
  }

  method CaptureGraphs(graphs: map<Iri, Graph>, ghost was: map<Iri, GraphSnap>, ghost live: set<Obj>, ghost p: Picture)
    returns (saved: map<Iri, GraphSnap>, ghost w: Work)
    requires Filed(graphs) && AsDescribed(Footprint(graphs), graphs, was)
    requires Kept(live, p) && graphs.Keys <= was.Keys && forall gid | gid in graphs :: was[gid].Within(live)
    ensures fresh(w.made) && Kept(w.made, w.q) && CopiedSoFar(p, w)
    ensures w.was == Describe(graphs) && w.now == saved && SameGraphDirty(w.was, w.now)
  {
    saved, w := map[], NOTHING_YET;
    ghost var done: map<Iri, Graph> := map[];
    var todo := graphs.Keys;
    CapturingBegins(graphs, p);
    while todo != {}
      invariant todo <= graphs.Keys && Capturing(graphs, done, todo, saved, p, w) && AsDescribed(Footprint(done), done, w.was)
      invariant AsDescribed(Footprint(graphs), graphs, was) && Kept(live, p)
      invariant fresh(w.made) && Kept(w.made, w.q)
      decreases todo
    {
      var gid :| gid in todo;
      var s;
      s, w := CaptureNext(graphs, done, todo, gid, saved, was, live, p, w);
      saved, done, todo := saved[gid := s], done[gid := graphs[gid]], todo - {gid};
    }
    CapturingEnds(graphs, done, saved, p, w);
  }

  ghost predicate Restoring(survivors: map<Iri, Graph>, done: map<Iri, Graph>, todo: set<Iri>, saved: map<Iri, GraphSnap>, p: Picture, w: Work) {
    forall key {:trigger Asked(key)} :: Asked(key) && key == IN_PROGRESS ==>
      && Doing(survivors, done, todo, p, w) && Took(saved, w) && SameGraphDirty(w.was, w.now)
      && Filed(survivors) && survivors.Keys == saved.Keys
  }

  lemma RestoringBegins(survivors: map<Iri, Graph>, saved: map<Iri, GraphSnap>, p: Picture)
    requires Filed(survivors) && survivors.Keys == saved.Keys
    ensures Restoring(survivors, map[], survivors.Keys, saved, p, NOTHING_YET)
    ensures Kept({}, map[]) && AsDescribed(Footprint(map[]), map[], map[])
  {
    NoneDone(p);
  }

  lemma RestoringEnds(survivors: map<Iri, Graph>, done: map<Iri, Graph>, saved: map<Iri, GraphSnap>, p: Picture, w: Work)
    requires Restoring(survivors, done, {}, saved, p, w) && AsDescribed(Footprint(done), done, w.now)
    ensures CopiedSoFar(p, w) && w.was == saved && AsDescribed(Footprint(survivors), survivors, w.now) && SameGraphDirty(w.was, w.now)
  {
    assert Asked(IN_PROGRESS);
    AllDone(survivors, done, p, w, w.now);
    TookAll(saved, w);
  }

  method RestoreNext(
    survivors: map<Iri, Graph>, ghost done: map<Iri, Graph>, ghost todo: set<Iri>, gid: Iri, saved: map<Iri, GraphSnap>,
    ghost own: set<Obj>, ghost p: Picture, ghost w: Work) returns (ghost w': Work)
    requires Restoring(survivors, done, todo, saved, p, w) && gid in todo && gid in survivors && gid in saved && saved[gid].Within(own)
    requires AsDescribed(Footprint(done), done, w.now) && Kept(own, p) && Kept(w.made, w.q)
    modifies survivors[gid], survivors[gid].Dicts()
    ensures Restoring(survivors, done[gid := survivors[gid]], todo - {gid}, saved, p, w')
    ensures AsDescribed(Footprint(done[gid := survivors[gid]]), done[gid := survivors[gid]], w'.now)
    ensures Kept(own, p) && Kept(w'.made, w'.q) && fresh(w'.made - w.made)
  {
    RestoringIs(survivors, done, todo, saved, p, w);
    FiledAt(survivors, gid);
    w' := RestoreOne(done, survivors[gid], saved[gid], own, p, w);
    RestoringMore(survivors, done, todo, saved, p, w, gid, w');
  }

  lemma RestoringIs(
    survivors: map<Iri, Graph>, done: map<Iri, Graph>, todo: set<Iri>, saved: map<Iri, GraphSnap>, p: Picture, w: Work)
    requires Restoring(survivors, done, todo, saved, p, w)
    ensures Doing(survivors, done, todo, p, w) && SameGraphDirty(w.was, w.now) && Filed(survivors)
  {
    assert Asked(IN_PROGRESS);
  }

  lemma RestoringMore(
    survivors: map<Iri, Graph>, done: map<Iri, Graph>, todo: set<Iri>, saved: map<Iri, GraphSnap>, p: Picture, w: Work, gid: Iri, w': Work)
    requires Restoring(survivors, done, todo, saved, p, w) && gid in todo && gid in saved && gid in survivors
    requires CopiedSoFar(p, w') && SameGraphDirty(w'.was, w'.now) && w'.was == w.was[gid := saved[gid]]
    ensures Restoring(survivors, done[gid := survivors[gid]], todo - {gid}, saved, p, w')
    ensures Footprint(done[gid := survivors[gid]]) == Footprint(done) + {survivors[gid]} + survivors[gid].Dicts()
  {
    assert Asked(IN_PROGRESS);
    TookMore(saved, w, gid, w');
    DoneMore(survivors, done, todo, p, w, gid, w');
  }

  method RestoreSurvivors(survivors: map<Iri, Graph>, saved: map<Iri, GraphSnap>, ghost own: set<Obj>, ghost p: Picture)
    returns (ghost w: Work)
    requires Filed(survivors) && survivors.Keys == saved.Keys && Kept(own, p) && forall gid | gid in saved :: saved[gid].Within(own)
    modifies GraphObjects(survivors), DictsOf(survivors)
    ensures fresh(w.made) && Kept(w.made, w.q) && CopiedSoFar(p, w) && Kept(own, p)
    ensures w.was == saved && AsDescribed(Footprint(survivors), survivors, w.now) && SameGraphDirty(w.was, w.now)
  {
    w := NOTHING_YET;
    ghost var done: map<Iri, Graph> := map[];
    var todo := survivors.Keys;
    RestoringBegins(survivors, saved, p);
    while todo != {}
      invariant todo <= survivors.Keys && Restoring(survivors, done, todo, saved, p, w) && AsDescribed(Footprint(done), done, w.now)
      invariant Kept(own, p) && Kept(w.made, w.q) && fresh(w.made)
      decreases todo
    {
      var gid :| gid in todo;
      w := RestoreNext(survivors, done, todo, gid, saved, own, p, w);
      done, todo := done[gid := survivors[gid]], todo - {gid};
    }
    RestoringEnds(survivors, done, saved, p, w);
  }

  ghost predicate Rebuilding(rebuilt: map<Iri, Graph>, at: set<object>, todo: set<Iri>, saved: map<Iri, GraphSnap>, p: Picture, w: Work) {
    forall key {:trigger Asked(key)} :: Asked(key) && key == IN_PROGRESS ==>
      && todo <= saved.Keys && w.was.Keys == rebuilt.Keys == saved.Keys - todo && Took(saved, w)
      && CopiedSoFar(p, w) && Filed(rebuilt) && at == Footprint(rebuilt) && NothingDirty(w.now)
  }

  lemma RebuildingBegins(saved: map<Iri, GraphSnap>, p: Picture)
    ensures Rebuilding(map[], {}, saved.Keys, saved, p, NOTHING_YET) && Kept({}, map[]) && AsDescribed({}, map[], map[])
  {
    NoneDone(p);
  }

  lemma RebuildingIs(
    rebuilt: map<Iri, Graph>, at: set<object>, todo: set<Iri>, saved: map<Iri, GraphSnap>, p: Picture, w: Work, gid: Iri)
    requires Rebuilding(rebuilt, at, todo, saved, p, w) && gid in todo
    ensures CopiedSoFar(p, w) && Filed(rebuilt) && at == Footprint(rebuilt) && gid !in rebuilt && gid !in w.was
  {
    assert Asked(IN_PROGRESS);
  }

  lemma RebuildingMore(
    rebuilt: map<Iri, Graph>, at: set<object>, todo: set<Iri>, saved: map<Iri, GraphSnap>, p: Picture, w: Work, gid: Iri, g: Graph, w': Work)
    requires Rebuilding(rebuilt, at, todo, saved, p, w) && gid in todo && gid in saved && g.graphId == gid && g.Wired()
    requires CopiedSoFar(p, w') && w'.was == w.was[gid := saved[gid]] && w'.now == w.now[gid := g.Described()] && g.dirty == map[]
    ensures Rebuilding(rebuilt[gid := g], at + {g} + g.Dicts(), todo - {gid}, saved, p, w')
  {
    RebuildingIs(rebuilt, at, todo, saved, p, w, gid);
    Elsewhere(rebuilt, g);
    assert Took(saved, w) && NothingDirty(w.now) && todo <= saved.Keys && w.was.Keys == rebuilt.Keys == saved.Keys - todo by {
      assert Asked(IN_PROGRESS);
    }
    TookMore(saved, w, gid, w');
    StillNotDirty(w.now, gid, g.Described());
    RebuildingIf(rebuilt[gid := g], at + {g} + g.Dicts(), todo - {gid}, saved, p, w');
  }

  lemma RebuildingIf(rebuilt: map<Iri, Graph>, at: set<object>, todo: set<Iri>, saved: map<Iri, GraphSnap>, p: Picture, w: Work)
    requires todo <= saved.Keys && w.was.Keys == rebuilt.Keys == saved.Keys - todo && Took(saved, w)
    requires CopiedSoFar(p, w) && Filed(rebuilt) && at == Footprint(rebuilt) && NothingDirty(w.now)
    ensures Rebuilding(rebuilt, at, todo, saved, p, w)
  {}

  lemma StillNotDirty(snaps: map<Iri, GraphSnap>, gid: Iri, s: GraphSnap)
    requires NothingDirty(snaps) && s.dirty == map[]
    ensures NothingDirty(snaps[gid := s])
  {}

  lemma RebuildingEnds(rebuilt: map<Iri, Graph>, at: set<object>, saved: map<Iri, GraphSnap>, p: Picture, w: Work)
    requires Rebuilding(rebuilt, at, {}, saved, p, w) && AsDescribed(at, rebuilt, w.now)
    ensures Filed(rebuilt) && at == Footprint(rebuilt) && NothingDirty(w.now) && rebuilt.Keys == saved.Keys
    ensures CopiedSoFar(p, w) && w.was == saved
  {
    assert Asked(IN_PROGRESS);
    TookAll(saved, w);
  }

  ghost predicate NothingDirty(snaps: map<Iri, GraphSnap>) { forall gid | gid in snaps :: snaps[gid].dirty == map[] }

  method RebuildNext(
    rebuilt: map<Iri, Graph>, ghost at: set<object>, ghost todo: set<Iri>, gid: Iri, saved: map<Iri, GraphSnap>,
    ghost own: set<Obj>, ghost p: Picture, ghost w: Work) returns (g: Graph, ghost at': set<object>, ghost w': Work)
    requires Rebuilding(rebuilt, at, todo, saved, p, w) && gid in todo && gid in saved && saved[gid].Within(own)
    requires AsDescribed(at, rebuilt, w.now) && Kept(own, p) && Kept(w.made, w.q)
    ensures Rebuilding(rebuilt[gid := g], at', todo - {gid}, saved, p, w') && AsDescribed(at', rebuilt[gid := g], w'.now)
    ensures Kept(own, p) && Kept(w'.made, w'.q) && fresh(w'.made - w.made) && fresh(at' - at)
  {
    RebuildingIs(rebuilt, at, todo, saved, p, w, gid);
    g, w' := RebuildOne(rebuilt, gid, saved[gid], own, p, w);
    RebuildingMore(rebuilt, at, todo, saved, p, w, gid, g, w');
    at' := at + {g} + g.Dicts();
  }

  /** The graphs that are gone, each built anew. */
  method Rebuild(saved: map<Iri, GraphSnap>, ghost own: set<Obj>, ghost p: Picture)
    returns (rebuilt: map<Iri, Graph>, ghost w: Work)
    requires Kept(own, p) && forall gid | gid in saved :: saved[gid].Within(own)
    ensures Filed(rebuilt) && fresh(Footprint(rebuilt)) && NothingDirty(w.now) && rebuilt.Keys == saved.Keys
    ensures fresh(w.made) && Kept(w.made, w.q) && CopiedSoFar(p, w) && w.was == saved && AsDescribed(Footprint(rebuilt), rebuilt, w.now)
  {
    rebuilt, w := map[], NOTHING_YET;
    ghost var at: set<object> := {};
    var todo := saved.Keys;
    RebuildingBegins(saved, p);
    while todo != {}
      invariant todo <= saved.Keys && Rebuilding(rebuilt, at, todo, saved, p, w) && AsDescribed(at, rebuilt, w.now)
      invariant Kept(own, p) && Kept(w.made, w.q) && fresh(w.made) && fresh(at)
      decreases todo
    {
      var gid :| gid in todo;
      var g;
      g, at, w := RebuildNext(rebuilt, at, todo, gid, saved, own, p, w);
      rebuilt, todo := rebuilt[gid := g], todo - {gid};
    }
    RebuildingEnds(rebuilt, at, saved, p, w);
  }

  // ---- survivors and rebuilt together ----

  function Still<T>(m: map<Iri, T>, keys: set<Iri>): map<Iri, T> { map k | k in m && k in keys :: m[k] }

  function Gone<T>(m: map<Iri, T>, keys: set<Iri>): map<Iri, T> { map k | k in m && k !in keys :: m[k] }

  function Both(v: Work, u: Work): Work { Work(v.was + u.was, v.memos + u.memos, v.made + u.made, v.q + u.q, v.now + u.now) }

  lemma SoFarIs(p: Picture, w: Work)
    requires CopiedSoFar(p, w)
    ensures w.was.Keys == w.now.Keys == w.memos.Keys && AllApart(w.memos) && forall gid | gid in w.memos :: w.memos[gid].made <= w.made
    ensures GraphsCopied(p, w.was, w.memos, w.q, w.now)
  {
    assert Asked(COPIED_SO_FAR);
  }

  lemma BothCopied(p: Picture, v: Work, u: Work)
    requires CopiedSoFar(p, v) && CopiedSoFar(p, u) && v.was.Keys !! u.was.Keys && v.made !! u.made
    requires Larger(v.q, v.q + u.q)
    ensures CopiedSoFar(p, Both(v, u))
  {
    SoFarInLarger(p, v, v.q + u.q);
    SoFarInLarger(p, u, v.q + u.q);
    SoFarIs(p, v.(q := v.q + u.q));
    SoFarIs(p, u.(q := v.q + u.q));
    BothMemos(v, u);
    BothGraphs(p, v.(q := v.q + u.q), u.(q := v.q + u.q));
  }

  lemma BothGraphs(p: Picture, v: Work, u: Work)
    requires v.was.Keys !! u.was.Keys && v.q == u.q
    requires GraphsCopied(p, v.was, v.memos, v.q, v.now) && GraphsCopied(p, u.was, u.memos, u.q, u.now)
    ensures GraphsCopied(p, v.was + u.was, v.memos + u.memos, v.q, v.now + u.now)
  {
    forall gid | gid in v.was + u.was ensures GraphCopied(p, (v.was + u.was)[gid], (v.memos + u.memos)[gid], v.q, (v.now + u.now)[gid]) {
      if gid in u.was {
        assert GraphCopied(p, u.was[gid], u.memos[gid], u.q, u.now[gid]);
      } else {
        assert GraphCopied(p, v.was[gid], v.memos[gid], v.q, v.now[gid]);
      }
    }
  }

  lemma BothMemos(v: Work, u: Work)
    requires v.memos.Keys !! u.memos.Keys && AllApart(v.memos) && AllApart(u.memos) && v.made !! u.made
    requires forall gid | gid in v.memos :: v.memos[gid].made <= v.made
    requires forall gid | gid in u.memos :: u.memos[gid].made <= u.made
    ensures AllApart(v.memos + u.memos) && forall gid | gid in v.memos + u.memos :: (v.memos + u.memos)[gid].made <= v.made + u.made
  {
    var memos := v.memos + u.memos;
    forall a, b | a in memos && b in memos && a != b ensures memos[a].made !! memos[b].made {
      assert memos[a].made <= if a in v.memos then v.made else u.made;
      assert memos[b].made <= if b in v.memos then v.made else u.made;
    }
  }

  lemma BothFiled(survivors: map<Iri, Graph>, rebuilt: map<Iri, Graph>)
    requires Filed(survivors) && Filed(rebuilt) && survivors.Keys !! rebuilt.Keys
    ensures Filed(survivors + rebuilt) && Footprint(survivors + rebuilt) == Footprint(survivors) + Footprint(rebuilt)
  {
    assert Asked(FILED);
    var both := survivors + rebuilt;
    assert forall gid | gid in survivors :: both[gid] == survivors[gid];
    assert forall gid | gid in rebuilt :: both[gid] == rebuilt[gid];
  }

  lemma BothDescribed(survivors: map<Iri, Graph>, rebuilt: map<Iri, Graph>, a: map<Iri, GraphSnap>, b: map<Iri, GraphSnap>)
    requires Filed(survivors) && Filed(rebuilt) && survivors.Keys !! rebuilt.Keys
    requires AsDescribed(Footprint(survivors), survivors, a) && AsDescribed(Footprint(rebuilt), rebuilt, b)
    ensures AsDescribed(Footprint(survivors + rebuilt), survivors + rebuilt, a + b)
  {
    BothFiled(survivors, rebuilt);
    DescribeBoth(survivors, rebuilt);
    assert Asked(AS_DESCRIBED);
  }

  lemma DescribeBoth(survivors: map<Iri, Graph>, rebuilt: map<Iri, Graph>)
    requires survivors.Keys !! rebuilt.Keys
    ensures Describe(survivors + rebuilt) == Describe(survivors) + Describe(rebuilt)
  {
    var both, a, b := Describe(survivors + rebuilt), Describe(survivors), Describe(rebuilt);
    forall gid | gid in both.Keys ensures both[gid] == if gid in b then b[gid] else a[gid] {
      assert (survivors + rebuilt)[gid] == if gid in rebuilt then rebuilt[gid] else survivors[gid];
    }
    SameMap(both, a, b);
  }

  lemma SameMap(both: map<Iri, GraphSnap>, a: map<Iri, GraphSnap>, b: map<Iri, GraphSnap>)
    requires both.Keys == a.Keys + b.Keys && forall k | k in both :: both[k] == if k in b then b[k] else a[k]
    ensures both == a + b
  {}

  /** What was dirty is so again in the graphs that were still there, and in no other. */
  ghost predicate DirtyWhere(saved: map<Iri, GraphSnap>, now: map<Iri, GraphSnap>, survivors: set<Iri>) {
    forall key {:trigger Asked(key)} :: Asked(key) && key == DIRTY_WHERE ==>
      && saved.Keys == now.Keys
      && forall gid | gid in saved :: SameDirty(now[gid].dirty, if gid in survivors then saved[gid].dirty else map[])
  }

  /** No graph that is gone was dirty. */
  ghost predicate NothingLost(saved: map<Iri, GraphSnap>, survivors: set<Iri>) {
    forall gid | gid in saved && gid !in survivors :: SameDirty(saved[gid].dirty, map[])
  }

  lemma DirtyExactly(saved: map<Iri, GraphSnap>, now: map<Iri, GraphSnap>, survivors: set<Iri>)
    requires DirtyWhere(saved, now, survivors)
    ensures SameGraphDirty(saved, now) <==> NothingLost(saved, survivors)
  {
    assert Asked(DIRTY_WHERE);
    assert SameGraphDirty(saved, now) ==> NothingLost(saved, survivors) by {
      assert Asked(SAME_DIRTY);
    }
  }

  lemma BothDirty(saved: map<Iri, GraphSnap>, v: Work, u: Work, survivors: set<Iri>)
    requires SameGraphDirty(v.was, v.now) && NothingDirty(u.now) && u.was.Keys == u.now.Keys
    requires v.was == Still(saved, survivors) && u.was == Gone(saved, survivors)
    ensures DirtyWhere(saved, v.now + u.now, survivors)
  {
    assert Asked(SAME_DIRTY);
    forall gid | gid in saved ensures gid in v.now + u.now && SameDirty((v.now + u.now)[gid].dirty, if gid in survivors then saved[gid].dirty else map[]) {
      assert gid in survivors ==> gid in v.was && v.was[gid] == saved[gid];
      assert gid !in survivors ==> gid in u.was;
    }
  }

  lemma StillAndGone<T>(m: map<Iri, T>, keys: set<Iri>)
    ensures Still(m, keys) + Gone(m, keys) == m && Still(m, keys).Keys !! Gone(m, keys).Keys
  {}

  lemma Merge(
    keys: set<Iri>, saved: map<Iri, GraphSnap>, survivors: map<Iri, Graph>, rebuilt: map<Iri, Graph>, p: Picture, v: Work, u: Work)
    requires Filed(survivors) && Filed(rebuilt) && survivors.Keys == v.was.Keys && rebuilt.Keys == u.was.Keys
    requires AsDescribed(Footprint(survivors), survivors, v.now) && AsDescribed(Footprint(rebuilt), rebuilt, u.now)
    requires CopiedSoFar(p, v) && CopiedSoFar(p, u) && Kept(v.made, v.q) && Kept(u.made, u.q) && v.made !! u.made
    requires SameGraphDirty(v.was, v.now) && NothingDirty(u.now) && v.was == Still(saved, keys) && u.was == Gone(saved, keys)
    ensures Both(v, u).was == saved && DirtyWhere(saved, Both(v, u).now, keys) && CopiedSoFar(p, Both(v, u))
    ensures Kept(Both(v, u).made, Both(v, u).q)
    ensures Filed(survivors + rebuilt) && AsDescribed(Footprint(survivors + rebuilt), survivors + rebuilt, Both(v, u).now)
  {
    StillAndGone(saved, keys);
    KeptBoth(v.made, v.q, u.made, u.q);
    BothCopied(p, v, u);
    SoFarIs(p, u);
    BothFiled(survivors, rebuilt);
    BothDescribed(survivors, rebuilt, v.now, u.now);
    BothDirty(saved, v, u, keys);
  }

  /** The graphs that are gone built anew; nothing else changes. */
  method RebuildApart(saved: map<Iri, GraphSnap>, ghost own: set<Obj>, ghost p: Picture, ghost at: set<object>)
    returns (rebuilt: map<Iri, Graph>, ghost w: Work)
    requires Kept(own, p) && forall gid | gid in saved :: saved[gid].Within(own)
    ensures Filed(rebuilt) && fresh(Footprint(rebuilt)) && NothingDirty(w.now) && rebuilt.Keys == saved.Keys && unchanged(at)
    ensures fresh(w.made) && Kept(w.made, w.q) && CopiedSoFar(p, w) && w.was == saved && AsDescribed(Footprint(rebuilt), rebuilt, w.now)
  {
    rebuilt, w := Rebuild(saved, own, p);
  }

  method RestoreParts(live: map<Iri, Graph>, saved: map<Iri, GraphSnap>, ghost own: set<Obj>, ghost p: Picture)
    returns (survivors: map<Iri, Graph>, rebuilt: map<Iri, Graph>, ghost v: Work, ghost u: Work)
    requires Filed(live) && Kept(own, p) && forall gid | gid in saved :: saved[gid].Within(own)
    modifies Footprint(live)
    ensures survivors == Still(live, saved.Keys) && rebuilt.Keys == Gone(saved, live.Keys).Keys && Filed(rebuilt)
    ensures fresh(v.made) && fresh(u.made) && v.made !! u.made && fresh(Footprint(rebuilt)) && Kept(own, p)
    ensures AsDescribed(Footprint(survivors), survivors, v.now) && AsDescribed(Footprint(rebuilt), rebuilt, u.now)
    ensures CopiedSoFar(p, v) && CopiedSoFar(p, u) && Kept(v.made, v.q) && Kept(u.made, u.q)
    ensures SameGraphDirty(v.was, v.now) && NothingDirty(u.now) && v.was == Still(saved, live.Keys) && u.was == Gone(saved, live.Keys)
  {
    survivors := Still(live, saved.Keys);
    ghost var at := Footprint(survivors);
    v := RestoreSurvivors(survivors, Still(saved, live.Keys), own, p);
    rebuilt, u := RebuildApart(Gone(saved, live.Keys), own, p, at + v.made + own);
  }

  /** Survivors in place, added graphs dropped, removed ones built anew. */
  method RestoreGraphs(live: map<Iri, Graph>, saved: map<Iri, GraphSnap>, ghost own: set<Obj>, ghost p: Picture)
    returns (restored: map<Iri, Graph>, ghost w: Work, ghost built: set<object>)
    requires Filed(live) && Kept(own, p) && forall gid | gid in saved :: saved[gid].Within(own)
    modifies Footprint(live)
    ensures Filed(restored) && w.was == saved && AsDescribed(Footprint(restored), restored, w.now)
    ensures fresh(w.made) && Kept(w.made, w.q) && CopiedSoFar(p, w) && DirtyWhere(saved, w.now, live.Keys)
    ensures restored.Keys == saved.Keys && Replaced(live, restored, built) && fresh(built) && Kept(own, p)
  {
    var survivors, rebuilt;
    ghost var v, u;
    survivors, rebuilt, v, u := RestoreParts(live, saved, own, p);
    restored, w, built := survivors + rebuilt, Both(v, u), Footprint(rebuilt);
    WhereFrom(live, saved.Keys, rebuilt);
    Merge(live.Keys, saved, survivors, rebuilt, p, v, u);
  }

  lemma WhereFrom(live: map<Iri, Graph>, keys: set<Iri>, rebuilt: map<Iri, Graph>)
    requires rebuilt.Keys == keys - live.Keys
    ensures (Still(live, keys) + rebuilt).Keys == keys && Replaced(live, Still(live, keys) + rebuilt, Footprint(rebuilt))
  {}

  /** A graph that is in both is the same object, and any other is newly built. */
  ghost predicate Replaced(live: map<Iri, Graph>, restored: map<Iri, Graph>, built: set<object>) {
    forall key {:trigger Asked(key)} :: Asked(key) && key == REPLACED ==>
      forall gid | gid in restored ::
        if gid in live then restored[gid] == live[gid] else restored[gid] in built && restored[gid].Dicts() <= built
  }
}
