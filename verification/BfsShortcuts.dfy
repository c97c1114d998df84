/** Where breadth-first search falls short: capacities that can run without all of their inputs. */
module BfsShortcuts {
  import opened Identifiers
  import opened Catalogs
  import opened Pipelines
  import opened BfsSearch
  import opened BfsFinder
  import opened BfsLimits

  /** The search would take it at once: it has inputs, and the starts have them all. */
  predicate Fed(cat: Catalog, starts: set<Iri>, c: Iri) {
    c in cat.caps && !cat.Refused(c) && cat.Inputs(c) != [] && forall d | d in cat.Inputs(c) :: d in starts
  }

  /** Any route begins with such a capacity. */
  lemma RoutesBeginFed(b: Bfs, r: Pipeline)
    requires b.target !in b.starts && Answers(b, Route(r))
    ensures r.steps != [] && Fed(b.cat, b.starts, r.steps[0].capacity)
    ensures |r.steps| == 1 ==> b.target in b.cat.Outputs(r.steps[0].capacity)
  {
    assert LinkFits(b.cat, b.starts, r.steps, r.edges, 0);
  }

  /** And what such a capacity makes is found in one step. */
  lemma FedIsFound(b: Bfs, v: FindVerdict, c: Iri)
    requires b.target !in b.starts && b.maxDepth >= 1 && Answers(b, v)
    requires Fed(b.cat, b.starts, c) && b.target in b.cat.Outputs(c)
    ensures v.Route? && |v.pipeline.steps| == 1
  {
    var x := b.cat.Inputs(c)[0];
    assert Suffices(b.cat, b.starts, x, c);
    assert Hops(b.cat, b.starts, x, b.target);
    assert HopChain(b.cat, b.starts, b.target, [x, b.target]);
    if v.Route? { RoutesBeginFed(b, v.pipeline); }
  }

  lemma RunsAlone(b: Bfs, c: Iri)
    requires c in b.cat.caps && b.target in b.cat.Outputs(c)
    ensures Makes(b.cat, b.starts, b.target, [StepOf(b.cat, c)]) <==> !b.cat.Refused(c) && InputsPresent(b.cat, c, b.starts)
  {
    var steps := [StepOf(b.cat, c)];
    assert Blackboard(b.starts, steps, 0) == b.starts;
    assert Blackboard(b.starts, steps, 1) == b.starts + SeqSet(b.cat.Outputs(c));
  }

  /** In a catalog of a single capacity, which makes the target: it makes a route when the input check lets it run on the
      starts, and that route is found exactly when the capacity has inputs and the starts have every one of them. The two
      differ for a capacity without inputs, for an `any_of` of which a start is but one input, and for a fold. */
  lemma OneCapacityAlone(b: Bfs, v: FindVerdict, c: Iri)
    requires b.cat.caps.Keys == {c} && b.target !in b.starts && b.target in b.cat.Outputs(c) && b.maxDepth >= 1 && Answers(b, v)
    ensures Makes(b.cat, b.starts, b.target, [StepOf(b.cat, c)]) <==> !b.cat.Refused(c) && InputsPresent(b.cat, c, b.starts)
    ensures v.Route? <==> !b.cat.Refused(c) && b.cat.Inputs(c) != [] && forall d | d in b.cat.Inputs(c) :: d in b.starts
    ensures !v.Route? ==> v == NoRoute(BfsExhausted, map[])
  {
    RunsAlone(b, c);
    if Fed(b.cat, b.starts, c) { FedIsFound(b, v, c); }
    if v.Route? { RoutesBeginFed(b, v.pipeline); }
  }

  /** A capacity `c` from one DataState that is given and one that is not, and the way round it: `c1` makes `x` from `s`, and
      `c2` makes `t` from `x`. */
  datatype Shortcut = Shortcut(c: Iri, c1: Iri, c2: Iri, s: Iri, d: Iri, x: Iri, t: Iri)
  {
    predicate Apart() { c != c1 && c != c2 && c1 != c2 && s != d && s != x && s != t && d != x && d != t && x != t }

    /** What `c` may look like to run on `s` with no need of more: it has no inputs, or takes `s` or `d`, or folds `d`. */
    predicate Short(cap: Capacity) {
      || cap == Capacity([], [t], AllRequired, false) || cap == Capacity([s, d], [t], AnyOf, false)
      || cap == Capacity([d], [t], Fold, false)
    }

    function Round(): map<Iri, Capacity> {
      map[c1 := Capacity([s], [x], AllRequired, false), c2 := Capacity([x], [t], AllRequired, false)]
    }
  }

  /** There are such catalogs, for any names, with the way round and without. */
  lemma ShortcutsExist(n: Shortcut, cap: Capacity) returns (alone: Catalog, both: Catalog)
    requires n.Apart()
    ensures alone.caps == map[n.c := cap] && both.caps == n.Round()[n.c := cap]
  {
    var none := RawCatalog(map[], map[], map[]);
    alone := Add(none, n.c, cap);
    var one := Add(none, n.c1, Capacity([n.s], [n.x], AllRequired, false));
    var two := Add(one, n.c2, Capacity([n.x], [n.t], AllRequired, false));
    both := Add(two, n.c, cap);
  }

  lemma ShortRuns(cat: Catalog, n: Shortcut, cap: Capacity)
    requires n.Apart() && n.Short(cap) && n.c in cat.caps && cat.caps[n.c] == cap
    ensures !cat.Refused(n.c) && InputsPresent(cat, n.c, {n.s}) && !Fed(cat, {n.s}, n.c) && n.t in cat.Outputs(n.c)
  {
    if cap.inputs == [n.s, n.d] {
      assert cap.inputs[0] == n.s && cap.inputs[1] == n.d;
      assert n.s in cat.Inputs(n.c) && n.d in cat.Inputs(n.c);
    } else if cap.inputs == [n.d] {
      assert cap.inputs[0] == n.d;
      assert n.d in cat.Inputs(n.c);
    }
  }

  /** A step that runs on the start alone makes the target, and the search finds no route at any depth. */
  lemma RunningRouteMissed(b: Bfs, v: FindVerdict, n: Shortcut, cap: Capacity)
    requires n.Apart() && n.Short(cap) && b.cat.caps == map[n.c := cap] && b.starts == {n.s} && b.target == n.t && Answers(b, v)
    ensures Makes(b.cat, b.starts, b.target, [StepOf(b.cat, n.c)]) && v == NoRoute(BfsExhausted, map[])
  {
    ShortRuns(b.cat, n, cap);
    RunsAlone(b, n.c);
    if v.Route? { RoutesBeginFed(b, v.pipeline); }
  }

  /** With the way round there too, the search finds that, of two steps, where one would do. */
  lemma LongerThanNeeded(b: Bfs, v: FindVerdict, n: Shortcut, cap: Capacity)
    requires n.Apart() && n.Short(cap) && b.cat.caps == n.Round()[n.c := cap] && b.starts == {n.s} && b.target == n.t
    requires b.maxDepth >= 2 && Answers(b, v)
    ensures Makes(b.cat, b.starts, b.target, [StepOf(b.cat, n.c)]) && v.Route? && |v.pipeline.steps| == 2
  {
    ShortRuns(b.cat, n, cap);
    RunsAlone(b, n.c);
    RoundIsChain(b.cat, n, cap);
    if v.Route? {
      RoutesBeginFed(b, v.pipeline);
      FedGoesRound(b.cat, n, cap, v.pipeline.steps[0].capacity);
    }
  }

  lemma RoundIsChain(cat: Catalog, n: Shortcut, cap: Capacity)
    requires n.Apart() && cat.caps == n.Round()[n.c := cap]
    ensures HopChain(cat, {n.s}, n.t, [n.s, n.x, n.t])
  {
    assert Suffices(cat, {n.s}, n.s, n.c1) && Suffices(cat, {n.s}, n.x, n.c2);
    assert Hops(cat, {n.s}, n.s, n.x) && Hops(cat, {n.s}, n.x, n.t);
  }

  /** Only the way round begins with what the start feeds. */
  lemma FedGoesRound(cat: Catalog, n: Shortcut, cap: Capacity, c: Iri)
    requires n.Apart() && cat.caps == n.Round()[n.c := cap] && !Fed(cat, {n.s}, n.c) && Fed(cat, {n.s}, c)
    ensures n.t !in cat.Outputs(c)
  {
    assert n.x in cat.Inputs(n.c2);
    assert c == n.c1 && cat.Outputs(c) == [n.x];
  }
}
