/** The two phases of the conjunction finder agree whenever no capacity that chooses among inputs lies on a cycle. */
module Agreement {
  import opened Identifiers
  import opened Catalogs
  import opened Dependency
  import opened Reachability
  import opened Pipelines
  import opened Conjunction
  import opened RouteForm

  ghost function NonStarts(s: Search): set<Iri> { s.cat.Universe() - s.starts }

  /** No capacity that can choose, that can be satisfied and that leads to the target consumes something its own output leads
      back to. */
  ghost predicate NoChoiceOnCycle(s: Search, target: Iri) {
    forall c, d, o | c in s.cat.caps && Chooses(s.cat, c) && s.Satisfiable(c, {}) && d in s.cat.Inputs(c) && o in s.cat.Outputs(c)
      && Reaches(s.cat, o, target) :: !Reaches(s.cat, o, d)
  }

  /** `a` is under construction above the DataState `goal`: a capacity that chooses consumes something `goal`
      leads to, any other has an input of its own on the stack. */
  ghost predicate Above(s: Search, a: Iri, goal: Iri, stack: set<Iri>) {
    && a in s.cat.caps && !s.cat.Refused(a)
    && (if Chooses(s.cat, a) then exists i :: i in s.cat.Inputs(a) && Reaches(s.cat, goal, i)
        else exists i :: i in s.cat.Inputs(a) && i in stack && i !in s.starts)
  }

  /** The live stack, everything under construction and the target itself lie above `goal`. */
  ghost predicate Live(s: Search, target: Iri, inFlight: set<Iri>, goal: Iri, stack: set<Iri>) {
    && (forall a | a in inFlight :: Above(s, a, goal, stack))
    && (forall x | x in stack :: Reaches(s.cat, goal, x))
    && Reaches(s.cat, goal, target)
  }

  /** Every step has what its group asks for wired: one input of an `any_of`, every input otherwise. */
  ghost predicate FullyWired(cat: Catalog, steps: seq<DagStep>, edges: seq<DagEdge>) {
    forall i | 0 <= i < |steps| :: StepWired(cat, steps[i], edges, i)
  }

  ghost predicate StepWired(cat: Catalog, step: DagStep, edges: seq<DagEdge>, i: int) {
    if cat.GroupOf(step.capacity) == AnyOf then step.inputs == [] || exists d :: d in step.inputs && WiredAt(edges, i, d)
    else forall d | d in step.inputs :: WiredAt(edges, i, d)
  }

  ghost predicate Enough(cat: Catalog, c: Iri, incoming: seq<Wire>) {
    if cat.GroupOf(c) == AnyOf then cat.Inputs(c) == [] || exists d :: d in cat.Inputs(c) && Carries(incoming, d)
    else forall d | d in cat.Inputs(c) :: Carries(incoming, d)
  }

  /** There is room to go one level down for every DataState that can still join the stack. */
  ghost predicate Deep(s: Search, depth: nat, stack: set<Iri>) {
    depth + |NonStarts(s) - stack| <= s.maxDepth
  }

  ghost predicate KeepsOn(s: Search, w: Walk, w': Walk) {
    && w'.inFlight == w.inFlight && w.fired.Keys <= w'.fired.Keys
    && FullyWired(s.cat, w'.steps, w'.edges)
  }

  // ---- going one input further down ----

  lemma LiveBelow(s: Search, target: Iri, inFlight: set<Iri>, c: Iri, goal: Iri, d: Iri, stack: set<Iri>)
    requires Live(s, target, inFlight, goal, stack)
    requires c in s.cat.caps && !s.cat.Refused(c) && goal in s.cat.Outputs(c) && d in s.cat.Inputs(c) && d !in s.starts
    ensures Live(s, target, inFlight + {c}, d, stack + {d})
  {
    ReachesItself(s.cat, d);
    ReachesItself(s.cat, goal);
    ReachesThrough(s.cat, c, d, goal, goal);
    forall x | x in stack + {d} ensures Reaches(s.cat, d, x) {
      if x != d { ReachesTransitive(s.cat, d, goal, x); }
    }
    ReachesTransitive(s.cat, d, goal, target);
    forall a | a in inFlight + {c} ensures Above(s, a, d, stack + {d}) {
      if a == c {
      } else if Chooses(s.cat, a) {
        assert Above(s, a, goal, stack);
        var i :| i in s.cat.Inputs(a) && Reaches(s.cat, goal, i);
        ReachesTransitive(s.cat, d, goal, i);
      } else {
        assert Above(s, a, goal, stack);
        var i :| i in s.cat.Inputs(a) && i in stack && i !in s.starts;
      }
    }
  }

  /** The in-flight guard refuses nothing that phase 1 accepts under the live stack. */
  lemma SatisfiableIsEligible(s: Search, target: Iri, w: Walk, d: Iri, stack: set<Iri>, p: Iri)
    requires NoChoiceOnCycle(s, target) && Live(s, target, w.inFlight, d, stack)
    requires p in s.cat.Producers(d) && s.Satisfiable(p, stack)
    ensures s.Eligible(p, stack, w)
  {
    if p in w.inFlight {
      assert Above(s, p, d, stack);
      if Chooses(s.cat, p) {
        SatisfiableFromNothing(s, p, stack);
      } else {
        var i :| i in s.cat.Inputs(p) && i in stack && i !in s.starts;
        NeedsEveryInput(s, p, i, stack);
      }
    }
  }

  lemma SatisfiableFromNothing(s: Search, c: Iri, stack: set<Iri>)
    requires s.Satisfiable(c, stack)
    ensures s.Satisfiable(c, {})
  {
    forall d | d in s.cat.Inputs(c) && DsReachable(s.cat, s.starts, d, stack) ensures DsReachable(s.cat, s.starts, d, {}) {
      ReachableAntitoneInStack(s.cat, s.starts, d, {}, stack);
    }
  }

  lemma NeedsEveryInput(s: Search, c: Iri, d: Iri, stack: set<Iri>)
    requires s.Satisfiable(c, stack) && !Chooses(s.cat, c) && d in s.cat.Inputs(c)
    ensures d in s.starts || d !in stack
  {
    if s.cat.GroupOf(c) == AnyOf {
      var e :| e in s.cat.Inputs(c) && DsReachable(s.cat, s.starts, e, stack);
      assert e == d;
    }
    assert DsReachable(s.cat, s.starts, d, stack);
  }

  /** An input consumed is never on the stack already, so each level down adds to the stack. */
  lemma StackGrows(s: Search, target: Iri, c: Iri, goal: Iri, d: Iri, stack: set<Iri>, inFlight: set<Iri>)
    requires NoChoiceOnCycle(s, target) && Live(s, target, inFlight, goal, stack) && s.Satisfiable(c, stack)
    requires c in s.cat.caps && goal in s.cat.Outputs(c) && d in s.cat.Inputs(c) && d !in s.starts
    ensures d !in stack
  {
    if Chooses(s.cat, c) {
      SatisfiableFromNothing(s, c, stack);
      assert !Reaches(s.cat, goal, d);
    } else {
      NeedsEveryInput(s, c, d, stack);
    }
  }

  lemma DeepBelow(s: Search, depth: nat, d: Iri, stack: set<Iri>)
    requires d in NonStarts(s) && d !in stack
    ensures Deep(s, depth + 1, stack + {d}) <==> Deep(s, depth, stack)
  {
    assert NonStarts(s) - stack == (NonStarts(s) - (stack + {d})) + {d};
  }

  // ---- the walk never aborts ----

  lemma {:induction false} FireSucceeds(s: Search, target: Iri, c: Iri, goal: Iri, depth: nat, stack: set<Iri>, w: Walk)
    requires NoChoiceOnCycle(s, target) && FullyWired(s.cat, w.steps, w.edges)
    requires Live(s, target, w.inFlight, goal, stack) && c !in w.inFlight
    requires c in s.cat.Producers(goal) && (c in w.fired || s.Satisfiable(c, stack))
    ensures match s.Fire(c, depth, stack, w)
      case FireAbort(reason, _) => reason == MaxDepthExceeded && !Deep(s, depth, stack)
      case Fired(_, w') => KeepsOn(s, w, w')
    decreases s.Room(depth), 3, 0
  {
    if c !in w.fired && depth <= s.maxDepth {
      var w0 := w.(inFlight := w.inFlight + {c});
      WireInputsSucceed(s, target, c, goal, s.cat.Inputs(c), [], depth, stack, w, w0);
      match s.WireInputs(c, s.cat.Inputs(c), [], depth, stack, w0)
      case WireAbort(_, _) =>
      case Wired(incoming, w1) =>
        EmitFullyWired(s, w1, c, incoming);
        assert w1.inFlight - {c} == w.inFlight;
    }
  }

  /** What comes of wiring `d`: only the depth stops it, and then truly; a wire is there if it is wanted. */
  ghost predicate Delivers(s: Search, r: WireResult, d: Iri, incoming: seq<Wire>, w: Walk, deep: bool, wanted: bool) {
    match r
    case WireAbort(reason, _) => reason == MaxDepthExceeded && !deep
    case Wired(incoming', w') => KeepsOn(s, w, w') && incoming <= incoming' && (wanted ==> Carries(incoming', d))
  }

  lemma {:induction false} WireInputsSucceed(
    s: Search, target: Iri, c: Iri, goal: Iri, ds: seq<Iri>, incoming: seq<Wire>, depth: nat, stack: set<Iri>, above: Walk, w: Walk)
    requires NoChoiceOnCycle(s, target) && FullyWired(s.cat, w.steps, w.edges)
    requires Live(s, target, above.inFlight, goal, stack) && depth <= s.maxDepth && w.inFlight == above.inFlight + {c}
    requires c in s.cat.Producers(goal) && s.Satisfiable(c, stack) && forall d | d in ds :: d in s.cat.Inputs(c)
    ensures match s.WireInputs(c, ds, incoming, depth, stack, w)
      case WireAbort(reason, _) => reason == MaxDepthExceeded && !Deep(s, depth, stack)
      case Wired(incoming', w') =>
        && KeepsOn(s, w, w') && incoming <= incoming'
        && forall d | d in ds && DsReachable(s.cat, s.starts, d, stack) :: Carries(incoming', d)
    decreases s.Room(depth), 2, |ds|
  {
    if ds != [] {
      WireInputSucceeds(s, target, c, goal, ds[0], incoming, depth, stack, above, w);
      match s.WireInput(c, ds[0], incoming, depth, stack, w)
      case WireAbort(_, _) =>
      case Wired(more, w1) =>
        WireInputsSucceed(s, target, c, goal, ds[1..], more, depth, stack, above, w1);
        match s.WireInputs(c, ds[1..], more, depth, stack, w1)
        case WireAbort(_, _) =>
        case Wired(incoming', w') =>
          forall d | d in ds && DsReachable(s.cat, s.starts, d, stack) ensures Carries(incoming', d) {
            if d !in ds[1..] { CarriesMore(more, incoming', d); }
          }
    }
  }

  lemma CarriesMore(incoming: seq<Wire>, more: seq<Wire>, d: Iri)
    requires incoming <= more && Carries(incoming, d)
    ensures Carries(more, d)
  {
    var x :| x in incoming && x.datastate == d;
    assert x in more;
  }

  /** All that holds one level down, where the producers of `d` are tried. */
  lemma Descend(
    s: Search, target: Iri, c: Iri, goal: Iri, d: Iri, depth: nat, stack: set<Iri>, inFlight: set<Iri>, w: Walk, admissible: seq<Iri>)
    requires NoChoiceOnCycle(s, target) && Live(s, target, inFlight, goal, stack) && w.inFlight == inFlight + {c}
    requires c in s.cat.Producers(goal) && s.Satisfiable(c, stack) && d in s.cat.Inputs(c) && d !in s.starts
    requires admissible == s.EligibleOf(SortByIri(s.cat.Producers(d)), stack + {d}, w)
    ensures Live(s, target, w.inFlight, d, stack + {d}) && AllEligible(s, admissible, d, stack + {d}, w)
    ensures Deep(s, depth + 1, stack + {d}) <==> Deep(s, depth, stack)
    ensures DsReachable(s.cat, s.starts, d, stack) ==> admissible != []
  {
    LiveBelow(s, target, inFlight, c, goal, d, stack);
    StackGrows(s, target, c, goal, d, stack, inFlight);
    s.cat.ConsumedInUniverse(c, d);
    DeepBelow(s, depth, d, stack);
    if DsReachable(s.cat, s.starts, d, stack) {
      var p :| p in s.cat.Producers(d) && s.Satisfiable(p, stack + {d});
      SatisfiableIsEligible(s, target, w, d, stack + {d}, p);
      assert p in admissible;
    }
  }

  lemma {:induction false} WireInputSucceeds(
    s: Search, target: Iri, c: Iri, goal: Iri, d: Iri, incoming: seq<Wire>, depth: nat, stack: set<Iri>, above: Walk, w: Walk)
    requires NoChoiceOnCycle(s, target) && FullyWired(s.cat, w.steps, w.edges)
    requires Live(s, target, above.inFlight, goal, stack) && depth <= s.maxDepth && w.inFlight == above.inFlight + {c}
    requires c in s.cat.Producers(goal) && s.Satisfiable(c, stack) && d in s.cat.Inputs(c)
    ensures var r := s.WireInput(c, d, incoming, depth, stack, w);
      Delivers(s, r, d, incoming, w, Deep(s, depth, stack), DsReachable(s.cat, s.starts, d, stack))
    decreases s.Room(depth), 1, 0
  {
    if d in s.starts {
      assert (incoming + [Wire(START, d)])[|incoming|] == Wire(START, d);
    } else {
      var admissible := s.EligibleOf(SortByIri(s.cat.Producers(d)), stack + {d}, w);
      WireProducedSucceeds(s, target, c, goal, d, incoming, depth, stack, above, w, admissible);
    }
  }

  /** An input that is no start, from the producers that are eligible. */
  lemma {:induction false} WireProducedSucceeds(
    s: Search, target: Iri, c: Iri, goal: Iri, d: Iri, incoming: seq<Wire>, depth: nat, stack: set<Iri>, above: Walk, w: Walk,
    admissible: seq<Iri>)
    requires NoChoiceOnCycle(s, target) && FullyWired(s.cat, w.steps, w.edges)
    requires Live(s, target, above.inFlight, goal, stack) && depth <= s.maxDepth && w.inFlight == above.inFlight + {c}
    requires c in s.cat.Producers(goal) && s.Satisfiable(c, stack) && d in s.cat.Inputs(c) && d !in s.starts
    requires admissible == s.EligibleOf(SortByIri(s.cat.Producers(d)), stack + {d}, w)
    ensures s.cat.GroupOf(c) == AllRequired ==> admissible != []
    ensures var r := s.FanIn(s.Chosen(c, admissible), d, incoming, depth + 1, stack + {d}, w);
      Delivers(s, r, d, incoming, w, Deep(s, depth, stack), DsReachable(s.cat, s.starts, d, stack))
    decreases s.Room(depth), 0, 0
  {
    if s.cat.GroupOf(c) == AllRequired { RequiredIsReachable(s, c, d, stack); }
    Descend(s, target, c, goal, d, depth, stack, above.inFlight, w, admissible);
    FanInSucceeds(s, target, s.Chosen(c, admissible), d, incoming, depth + 1, stack + {d}, w);
  }

  lemma RequiredIsReachable(s: Search, c: Iri, d: Iri, stack: set<Iri>)
    requires s.cat.GroupOf(c) == AllRequired && s.Satisfiable(c, stack) && d in s.cat.Inputs(c)
    ensures DsReachable(s.cat, s.starts, d, stack)
  {}

  ghost predicate AllEligible(s: Search, ps: seq<Iri>, d: Iri, stack: set<Iri>, w: Walk) {
    forall p | p in ps :: p in s.cat.Producers(d) && s.Eligible(p, stack, w)
  }

  lemma StillEligible(s: Search, ps: seq<Iri>, d: Iri, stack: set<Iri>, w: Walk, w': Walk)
    requires AllEligible(s, ps, d, stack, w) && KeepsOn(s, w, w')
    ensures AllEligible(s, ps, d, stack, w')
  {}

  lemma {:induction false} FanInSucceeds(
    s: Search, target: Iri, ps: seq<Iri>, d: Iri, incoming: seq<Wire>, depth: nat, stack: set<Iri>, w: Walk)
    requires NoChoiceOnCycle(s, target) && FullyWired(s.cat, w.steps, w.edges)
    requires Live(s, target, w.inFlight, d, stack)
    requires AllEligible(s, ps, d, stack, w)
    ensures Delivers(s, s.FanIn(ps, d, incoming, depth, stack, w), d, incoming, w, Deep(s, depth, stack), ps != [])
    decreases s.Room(depth), 4, |ps|
  {
    if ps != [] {
      assert ps[0] in ps && s.Eligible(ps[0], stack, w);
      FireSucceeds(s, target, ps[0], d, depth, stack, w);
      match s.Fire(ps[0], depth, stack, w)
      case FireAbort(_, _) =>
      case Fired(i, w1) =>
        var more := incoming + [Wire(i, d)];
        assert forall p | p in ps[1..] :: p in ps;
        StillEligible(s, ps[1..], d, stack, w, w1);
        FanInSucceeds(s, target, ps[1..], d, more, depth, stack, w1);
        DeliversOn(s, s.FanIn(ps[1..], d, more, depth, stack, w1), d, incoming, w, i, w1, Deep(s, depth, stack), ps[1..] != []);
    }
  }

  /** With one wire more to begin with. */
  lemma DeliversOn(s: Search, r: WireResult, d: Iri, incoming: seq<Wire>, w: Walk, i: int, w1: Walk, deep: bool, wanted: bool)
    requires KeepsOn(s, w, w1) && Delivers(s, r, d, incoming + [Wire(i, d)], w1, deep, wanted)
    ensures Delivers(s, r, d, incoming, w, deep, true)
  {
    var more := incoming + [Wire(i, d)];
    assert more[|incoming|] == Wire(i, d);
    if r.Wired? { CarriesMore(more, r.incoming, d); }
  }

  lemma EmitFullyWired(s: Search, w: Walk, c: Iri, incoming: seq<Wire>)
    requires FullyWired(s.cat, w.steps, w.edges) && Enough(s.cat, c, incoming)
    ensures var w' := s.Emit(w, c, incoming); FullyWired(s.cat, w'.steps, w'.edges)
  {
    var w' := s.Emit(w, c, incoming);
    var n := |w.steps|;
    forall i, d | WiredAt(w.edges, i, d) ensures WiredAt(w'.edges, i, d) {
      var e :| e in w.edges && e.consumer == i && e.datastate == d;
      assert e in w'.edges;
    }
    forall d | Carries(incoming, d) ensures WiredAt(w'.edges, n, d) {
      var k :| 0 <= k < |incoming| && incoming[k].datastate == d;
      assert EdgesInto(incoming, n)[k] in w'.edges;
    }
    forall i | 0 <= i < |w'.steps| ensures StepWired(s.cat, w'.steps[i], w'.edges, i) {
      if i < n { assert StepWired(s.cat, w.steps[i], w.edges, i); }
    }
  }

  // ---- the theorems ----

  /** With no capacity that chooses on a cycle: a target that is not derivable is reported as such, a derivable one
      is found, and only running out of `max_depth` can stop the walk, which takes fewer levels than there
      are DataStates outside the starts. Every step found has wired what its group asks for. */
  lemma PhasesAgree(s: Search, target: Iri)
    requires NoChoiceOnCycle(s, target)
    ensures match s.Find(target)
      case Route(p) => Derivable(s.cat, s.starts, target) && FullyWired(s.cat, p.steps, p.edges)
      case NoRoute(reason, _) =>
        if Derivable(s.cat, s.starts, target) then reason == MaxDepthExceeded && s.maxDepth < |NonStarts(s)|
        else reason == NoSatisfiableProducer
  {
    if target !in s.starts {
      SomeSatisfiableProducerIffDerivable(s.cat, s.starts, target);
      if exists c :: c in s.cat.Producers(target) && s.Satisfiable(c, {}) {
        var chosen := s.FindFires(target);
        assert NonStarts(s) - {} == NonStarts(s);
        ReachesItself(s.cat, target);
        FireSucceeds(s, target, chosen, target, 0, {}, NewWalk);
      }
    }
  }

  /** Where no capacity chooses there is nothing to check: the agreement holds on every cycle. */
  lemma NoAnyOfAgrees(s: Search, target: Iri)
    requires (forall c | c in s.cat.caps :: !Chooses(s.cat, c)) && |NonStarts(s)| <= s.maxDepth
    ensures s.Find(target).Route? <==> Derivable(s.cat, s.starts, target)
  {
    PhasesAgree(s, target);
  }

  /** Adding a start never loses a route. */
  lemma FindMonotoneInStarts(s: Search, more: set<Iri>, target: Iri)
    requires NoChoiceOnCycle(s.(starts := more), target) && |NonStarts(s)| <= s.maxDepth
    requires s.starts <= more && s.Find(target).Route?
    ensures s.(starts := more).Find(target).Route?
  {
    var wider := s.(starts := more);
    assert NonStarts(wider) <= NonStarts(s);
    SubsetSize(NonStarts(wider), NonStarts(s));
    if target !in s.starts { SomeSatisfiableProducerIffDerivable(s.cat, s.starts, target); }
    DerivableMonotoneInStarts(s.cat, s.starts, more, target);
    PhasesAgree(wider, target);
  }

  lemma {:induction false} SubsetSize(a: set<Iri>, b: set<Iri>)
    requires a <= b
    ensures |a| <= |b|
  {
    if a != {} {
      var x :| x in a;
      SubsetSize(a - {x}, b - {x});
    }
  }

  /** The route found then runs to the target: no step is refused for an input missing or unexpected. */
  lemma AgreedRouteRuns(s: Search, target: Iri, i: nat, board: map<Iri, Shape>, arity: map<Iri, int>)
    requires NoChoiceOnCycle(s, target)
    requires s.Find(target).Route? && i < |s.Find(target).pipeline.steps| && CONTEXT !in s.Find(target).pipeline.steps[i].inputs
    requires var p := s.Find(target).pipeline; board.Keys == Blackboard(p.starts, p.steps, i)
    ensures var step := s.Find(target).pipeline.steps[i];
      ValidateInputs(s.cat, step.capacity, Handed(step, board), arity) ==
      if s.cat.GroupOf(step.capacity) == Fold || OperandsFit(Handed(step, board), arity) then None else Some(OperandArity)
  {
    PhasesAgree(s, target);
    FoundRouteIsWellFormed(s, target);
    var p := s.Find(target).pipeline;
    assert StepWired(s.cat, p.steps[i], p.edges, i);
    WellFormedRouteRuns(s.cat, p, i, board, arity);
  }
}
