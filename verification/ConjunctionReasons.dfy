/** What a don't-know of the conjunction finder says, and how far the depth bound reaches. */
module ConjunctionReasons {
  import opened Identifiers
  import opened Catalogs
  import opened Reachability
  import opened Pipelines
  import opened Conjunction

  lemma SatisfiableFromNothing(s: Search, p: Iri, stack: set<Iri>)
    requires s.Satisfiable(p, stack)
    ensures s.Satisfiable(p, {})
  {
    forall i | i in s.cat.Inputs(p) && DsReachable(s.cat, s.starts, i, stack) ensures DsReachable(s.cat, s.starts, i, {}) {
      ReachableAntitoneInStack(s.cat, s.starts, i, {}, stack);
    }
  }

  /** `p`, which the starts can satisfy, makes an input of `c` that is not given. */
  ghost predicate Supplies(s: Search, p: Iri, c: Iri) {
    s.Satisfiable(p, {}) && exists d :: d in s.cat.Inputs(c) && d !in s.starts && p in s.cat.Producers(d)
  }

  /** Capacities each of which supplies the one before. */
  ghost predicate SupplyChain(s: Search, chain: seq<Iri>) {
    chain != [] && forall i | 0 <= i < |chain| - 1 :: Supplies(s, chain[i + 1], chain[i])
  }

  /** A capacity that must have all of its inputs and can be satisfied, and one of these that is not given. */
  ghost predicate Lacking(s: Search, c: Iri, d: Iri) {
    s.Satisfiable(c, {}) && s.cat.GroupOf(c) == AllRequired && d in s.cat.Inputs(c) && d !in s.starts
  }

  /** What an abort below `c` at some depth shows: a chain from `c` that is one capacity longer than the depth left allows,
      or one input that nothing could be found for, and then it is the one named. */
  ghost predicate Shows(s: Search, c: Iri, depth: nat, reason: Reason, missing: map<Iri, seq<Iri>>) {
    match reason
    case MaxDepthExceeded =>
      missing == map[] && exists chain :: SupplyChain(s, chain) && chain[0] == c && |chain| == s.maxDepth - depth + 2
    case RequiredInputUnproducible => exists q, d :: Lacking(s, q, d) && missing == map[q := [d]]
    case _ => false
  }

  lemma ShowsAbove(s: Search, p: Iri, c: Iri, depth: nat, reason: Reason, missing: map<Iri, seq<Iri>>)
    requires Supplies(s, p, c) && Shows(s, p, depth + 1, reason, missing)
    ensures Shows(s, c, depth, reason, missing)
  {
    if reason.MaxDepthExceeded? {
      var chain :| SupplyChain(s, chain) && chain[0] == p && |chain| == s.maxDepth - (depth + 1) + 2;
      assert SupplyChain(s, [c] + chain);
    }
  }

  lemma {:induction false} FireShows(s: Search, c: Iri, depth: nat, stack: set<Iri>, w: Walk)
    requires depth <= s.maxDepth + 1 && (c in w.fired || s.Satisfiable(c, {}))
    ensures match s.Fire(c, depth, stack, w)
      case FireAbort(reason, missing) => Shows(s, c, depth, reason, missing)
      case Fired(_, w') => w.fired.Keys <= w'.fired.Keys
    decreases s.Room(depth), 3, 0
  {
    if c in w.fired {
    } else if depth > s.maxDepth {
      assert SupplyChain(s, [c]);
    } else {
      WireInputsShow(s, c, s.cat.Inputs(c), [], depth, stack, w.(inFlight := w.inFlight + {c}));
    }
  }

  lemma {:induction false} WireInputsShow(s: Search, c: Iri, ds: seq<Iri>, incoming: seq<Wire>, depth: nat, stack: set<Iri>, w: Walk)
    requires depth <= s.maxDepth && s.Satisfiable(c, {}) && forall d | d in ds :: d in s.cat.Inputs(c)
    ensures match s.WireInputs(c, ds, incoming, depth, stack, w)
      case WireAbort(reason, missing) => Shows(s, c, depth, reason, missing)
      case Wired(_, w') => w.fired.Keys <= w'.fired.Keys
    decreases s.Room(depth), 2, |ds|
  {
    if ds != [] {
      WireInputShows(s, c, ds[0], incoming, depth, stack, w);
      match s.WireInput(c, ds[0], incoming, depth, stack, w)
      case WireAbort(_, _) =>
      case Wired(more, w1) => WireInputsShow(s, c, ds[1..], more, depth, stack, w1);
    }
  }

  lemma {:induction false} WireInputShows(s: Search, c: Iri, d: Iri, incoming: seq<Wire>, depth: nat, stack: set<Iri>, w: Walk)
    requires depth <= s.maxDepth && s.Satisfiable(c, {}) && d in s.cat.Inputs(c)
    ensures match s.WireInput(c, d, incoming, depth, stack, w)
      case WireAbort(reason, missing) => Shows(s, c, depth, reason, missing)
      case Wired(_, w') => w.fired.Keys <= w'.fired.Keys
    decreases s.Room(depth), 1, 0
  {
    if d !in s.starts {
      var nxt := stack + {d};
      var admissible := s.EligibleOf(SortByIri(s.cat.Producers(d)), nxt, w);
      if admissible == [] && s.cat.GroupOf(c) == AllRequired {
        assert Lacking(s, c, d);
      } else {
        FanInShows(s, c, s.Chosen(c, admissible), d, incoming, depth, nxt, w);
      }
    }
  }

  lemma {:induction false} FanInShows(s: Search, c: Iri, ps: seq<Iri>, d: Iri, incoming: seq<Wire>, depth: nat, stack: set<Iri>, w: Walk)
    requires depth <= s.maxDepth && d in s.cat.Inputs(c) && d !in s.starts
    requires forall p | p in ps :: p in s.cat.Producers(d) && (p in w.fired || s.Satisfiable(p, stack))
    ensures match s.FanIn(ps, d, incoming, depth + 1, stack, w)
      case WireAbort(reason, missing) => Shows(s, c, depth, reason, missing)
      case Wired(_, w') => w.fired.Keys <= w'.fired.Keys
    decreases s.Room(depth + 1), 4, |ps|
  {
    if ps != [] {
      var p := ps[0];
      if p !in w.fired { SatisfiableFromNothing(s, p, stack); }
      FireShows(s, p, depth + 1, stack, w);
      match s.Fire(p, depth + 1, stack, w)
      case FireAbort(reason, missing) => ShowsAbove(s, p, c, depth, reason, missing);
      case Fired(i, w1) =>
        FanInShows(s, c, ps[1..], d, incoming + [Wire(i, d)], depth, stack, w1);
    }
  }

  /** What a don't-know says, on any catalog: that nothing satisfiable makes the target, and only then; or that a chain of
      suppliers up to the target is longer than the bound allows; or the one input that nothing could be found for, of a
      capacity that must have all of its inputs. Only the last names anything. */
  lemma NoRouteSays(s: Search, target: Iri)
    requires s.maxDepth >= 0 && s.Find(target).NoRoute?
    ensures target !in s.starts
    ensures var v := s.Find(target);
      match v.reason
      case NoSatisfiableProducer => v.unproducible == map[] && forall p | p in s.cat.Producers(target) :: !s.Satisfiable(p, {})
      case MaxDepthExceeded =>
        v.unproducible == map[]
        && exists chain ::
             SupplyChain(s, chain) && |chain| == s.maxDepth + 2 && chain[0] in s.cat.Producers(target) && s.Satisfiable(chain[0], {})
      case RequiredInputUnproducible => exists q, d :: Lacking(s, q, d) && v.unproducible == map[q := [d]]
      case BfsExhausted => false
  {
    if exists c :: c in s.cat.Producers(target) && s.Satisfiable(c, {}) {
      var c := s.FindFires(target);
      FireShows(s, c, 0, {}, NewWalk);
      if s.Find(target).reason.MaxDepthExceeded? {
        var chain :| SupplyChain(s, chain) && chain[0] == c && |chain| == s.maxDepth + 2;
      }
    }
  }

  /** A bound below 0 lets nothing be built; one of 0 lets the first producer be, if all of its inputs are given, and then
      the route is that one step, each input from its start. */
  lemma FirstStep(s: Search, target: Iri, c: Iri)
    requires target !in s.starts && c in s.cat.Producers(target) && s.Satisfiable(c, {})
    requires forall p | p in s.cat.Producers(target) && s.Satisfiable(p, {}) && Leq(p, c) :: p == c
    ensures s.maxDepth < 0 ==> s.Find(target) == NoRoute(MaxDepthExceeded, map[])
    ensures s.maxDepth >= 0 && (forall d | d in s.cat.Inputs(c) :: d in s.starts) ==>
      var ds := s.cat.Inputs(c);
      s.Find(target) == Route(Pipeline(s.starts, target, [DagStep(c, ds, s.cat.Outputs(c))],
                                       seq(|ds|, i requires 0 <= i < |ds| => DagEdge(START, 0, ds[i]))))
  {
    s.FindFiresTheFirst(target, c);
    if s.maxDepth >= 0 && forall d | d in s.cat.Inputs(c) :: d in s.starts { FireGiven(s, c); }
  }

  lemma FireGiven(s: Search, c: Iri)
    requires s.maxDepth >= 0 && forall d | d in s.cat.Inputs(c) :: d in s.starts
    ensures var r := s.Fire(c, 0, {}, NewWalk); var ds := s.cat.Inputs(c);
      && r.Fired? && r.walk.steps == [DagStep(c, ds, s.cat.Outputs(c))]
      && r.walk.edges == seq(|ds|, i requires 0 <= i < |ds| => DagEdge(START, 0, ds[i]))
  {
    var ds := s.cat.Inputs(c);
    AllGiven(s, c, ds, [], NewWalk.(inFlight := NewWalk.inFlight + {c}));
    var wires := seq(|ds|, i requires 0 <= i < |ds| => Wire(START, ds[i]));
    assert [] + wires == wires;
    assert EdgesInto(wires, 0) == seq(|ds|, i requires 0 <= i < |ds| => DagEdge(START, 0, ds[i]));
  }

  lemma {:induction false} AllGiven(s: Search, c: Iri, ds: seq<Iri>, incoming: seq<Wire>, w: Walk)
    requires s.maxDepth >= 0 && forall d | d in ds :: d in s.starts
    ensures s.WireInputs(c, ds, incoming, 0, {}, w) == Wired(incoming + seq(|ds|, i requires 0 <= i < |ds| => Wire(START, ds[i])), w)
    decreases |ds|
  {
    var wires := seq(|ds|, i requires 0 <= i < |ds| => Wire(START, ds[i]));
    if ds == [] {
      assert incoming + wires == incoming;
    } else {
      AllGiven(s, c, ds[1..], incoming + [Wire(START, ds[0])], w);
      var rest := seq(|ds[1..]|, i requires 0 <= i < |ds[1..]| => Wire(START, ds[1..][i]));
      assert wires == [Wire(START, ds[0])] + rest;
      assert incoming + [Wire(START, ds[0])] + rest == incoming + wires;
    }
  }
}
