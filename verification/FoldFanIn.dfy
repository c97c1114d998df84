/** On acyclic catalogs a fold is fed by all derivable producers of each input, any other step by the one first by IRI. */
module FoldFanIn {
  import opened Identifiers
  import opened Catalogs
  import opened Dependency
  import opened Reachability
  import opened Pipelines
  import opened Conjunction
  import opened RouteForm
  import opened Agreement

  /** A stack that leads to nothing `d` is computed from changes no answer about `d`. */
  lemma {:induction false} StackIrrelevant(s: Search, rank: map<Iri, nat>, d: Iri, stack: set<Iri>)
    requires Acyclic(s.cat) && Ranked(s.cat, s.starts, {}, rank) && d in rank
    requires forall x | x in stack && x !in s.starts :: !Reaches(s.cat, x, d)
    ensures DsReachable(s.cat, s.starts, d, stack)
    decreases rank[d]
  {
    if d !in s.starts {
      var below := Under(rank, rank[d]);
      var c :| c in s.cat.Producers(d) && Satisfied(s.cat, c, below);
      var nxt := stack + {d};
      forall i | i in s.cat.Inputs(c) && i in below ensures DsReachable(s.cat, s.starts, i, nxt) {
        ReachesItself(s.cat, d);
        ReachesThrough(s.cat, c, i, d, d);
        forall x | x in nxt && x !in s.starts ensures !Reaches(s.cat, x, i) {
          if x != d && Reaches(s.cat, x, i) { ReachesTransitive(s.cat, x, i, d); }
        }
        StackIrrelevant(s, rank, i, nxt);
      }
      SatisfiedIsSatisfiable(s.cat, s.starts, c, below, nxt);
      if d in stack { ReachesItself(s.cat, d); }
      ProducerMakesReachable(s.cat, s.starts, c, d, stack);
    }
  }

  /** Under the live stack of an acyclic catalog, a producer is satisfiable exactly when it is from nothing. */
  lemma LiveStackIrrelevant(s: Search, p: Iri, d: Iri, stack: set<Iri>)
    requires Acyclic(s.cat) && p in s.cat.Producers(d) && s.Satisfiable(p, {})
    requires forall x | x in stack :: Reaches(s.cat, d, x)
    ensures s.Satisfiable(p, stack)
  {
    var rank := RankFixpoint(s.cat, s.starts, {});
    forall i | i in s.cat.Inputs(p) && DsReachable(s.cat, s.starts, i, {}) ensures DsReachable(s.cat, s.starts, i, stack) {
      DsReachableDecidesDerivable(s.cat, s.starts, i);
      forall x | x in stack && x !in s.starts ensures !Reaches(s.cat, x, i) {
        if Reaches(s.cat, x, i) { ReachesTransitive(s.cat, d, x, i); }
      }
      StackIrrelevant(s, rank, i, stack);
    }
  }

  /** `p` is the producer of one of the wires (edges into step `i`) that carry `d`. */
  ghost predicate DrawnFrom(w: Walk, incoming: seq<Wire>, d: Iri, p: Iri) {
    exists x :: x in incoming && x.datastate == d && 0 <= x.producer < |w.steps| && w.steps[x.producer].capacity == p
  }

  ghost predicate EdgeFrom(steps: seq<DagStep>, edges: seq<DagEdge>, i: int, d: Iri, p: Iri) {
    exists e :: e in edges && e.consumer == i && e.datastate == d && 0 <= e.producer < |steps| && steps[e.producer].capacity == p
  }

  /** Of the producers satisfiable from the starts, the one that is first by IRI. */
  ghost predicate FirstOf(s: Search, d: Iri, p: Iri) { forall q | q in s.cat.Producers(d) && s.Satisfiable(q, {}) :: Leq(p, q) }

  /** A fold draws an input from all such producers, any other capacity from the first. */
  ghost predicate Draws(s: Search, c: Iri, d: Iri, p: Iri) {
    p in s.cat.Producers(d) && s.Satisfiable(p, {}) && (s.cat.GroupOf(c) == Fold || FirstOf(s, d, p))
  }

  /** Every step draws each non-start input from whatever it should. */
  ghost predicate StepsDraw(s: Search, steps: seq<DagStep>, edges: seq<DagEdge>) {
    forall i, d, p | 0 <= i < |steps| && d in steps[i].inputs && d !in s.starts && Draws(s, steps[i].capacity, d, p) ::
      EdgeFrom(steps, edges, i, d, p)
  }

  /** And from nothing else. */
  ghost predicate EdgesDrawn(s: Search, steps: seq<DagStep>, edges: seq<DagEdge>) {
    forall e | e in edges && e.datastate !in s.starts ::
      && 0 <= e.producer < |steps| && 0 <= e.consumer < |steps|
      && Draws(s, steps[e.consumer].capacity, e.datastate, steps[e.producer].capacity)
  }

  ghost predicate StepsSatisfiable(s: Search, w: Walk) {
    forall i | 0 <= i < |w.steps| :: s.Satisfiable(w.steps[i].capacity, {})
  }

  ghost predicate Complete(s: Search, w: Walk) {
    Indexed(w) && StepsDraw(s, w.steps, w.edges) && EdgesDrawn(s, w.steps, w.edges) && StepsSatisfiable(s, w)
  }

  ghost predicate FanInComplete(s: Search, w: Walk, c: Iri, incoming: seq<Wire>, d: Iri) {
    forall p | Draws(s, c, d, p) :: DrawnFrom(w, incoming, d, p)
  }

  ghost predicate WiresDrawn(s: Search, w: Walk, c: Iri, incoming: seq<Wire>) {
    forall x | x in incoming && x.datastate !in s.starts ::
      0 <= x.producer < |w.steps| && Draws(s, c, x.datastate, w.steps[x.producer].capacity)
  }

  ghost predicate Extends(w: Walk, w': Walk) {
    w.steps <= w'.steps && w.edges <= w'.edges && w'.inFlight == w.inFlight
  }

  lemma DrawnFromMore(w: Walk, w': Walk, incoming: seq<Wire>, more: seq<Wire>, d: Iri, p: Iri)
    requires DrawnFrom(w, incoming, d, p) && w.steps <= w'.steps && incoming <= more
    ensures DrawnFrom(w', more, d, p)
  {
    var x :| x in incoming && x.datastate == d && 0 <= x.producer < |w.steps| && w.steps[x.producer].capacity == p;
    assert x in more;
  }

  lemma {:induction false} FireCompletes(s: Search, target: Iri, c: Iri, goal: Iri, depth: nat, stack: set<Iri>, w: Walk)
    requires Acyclic(s.cat) && Complete(s, w) && Live(s, target, w.inFlight, goal, stack)
    requires c in s.cat.Producers(goal) && c !in w.inFlight && s.Satisfiable(c, {})
    ensures s.Fire(c, depth, stack, w).Fired? ==>
      var Fired(i, w') := s.Fire(c, depth, stack, w);
      Complete(s, w') && Extends(w, w') && i < |w'.steps| && w'.steps[i].capacity == c
    decreases s.Room(depth), 3, 0
  {
    if c !in w.fired && depth <= s.maxDepth {
      var w0 := w.(inFlight := w.inFlight + {c});
      WireInputsComplete(s, target, c, goal, s.cat.Inputs(c), [], depth, stack, w, w0);
      match s.WireInputs(c, s.cat.Inputs(c), [], depth, stack, w0)
      case WireAbort(_, _) =>
      case Wired(incoming, w1) =>
        EmitCompletes(s, w1, c, incoming);
        assert w1.inFlight - {c} == w.inFlight;
    }
  }

  lemma {:induction false} WireInputsComplete(
    s: Search, target: Iri, c: Iri, goal: Iri, ds: seq<Iri>, incoming: seq<Wire>, depth: nat, stack: set<Iri>, above: Walk, w: Walk)
    requires Acyclic(s.cat) && Complete(s, w) && Live(s, target, above.inFlight, goal, stack) && depth <= s.maxDepth
    requires c in s.cat.Producers(goal) && s.Satisfiable(c, {}) && w.inFlight == above.inFlight + {c}
    requires (forall d | d in ds :: d in s.cat.Inputs(c)) && WiresDrawn(s, w, c, incoming)
    ensures s.WireInputs(c, ds, incoming, depth, stack, w).Wired? ==>
      var Wired(incoming', w') := s.WireInputs(c, ds, incoming, depth, stack, w);
      && Complete(s, w') && Extends(w, w') && incoming <= incoming' && WiresDrawn(s, w', c, incoming')
      && forall d | d in ds && d !in s.starts :: FanInComplete(s, w', c, incoming', d)
    decreases s.Room(depth), 2, |ds|
  {
    if ds != [] {
      WireInputCompletes(s, target, c, goal, ds[0], incoming, depth, stack, above, w);
      match s.WireInput(c, ds[0], incoming, depth, stack, w)
      case WireAbort(_, _) =>
      case Wired(more, w1) =>
        WireInputsComplete(s, target, c, goal, ds[1..], more, depth, stack, above, w1);
        match s.WireInputs(c, ds[1..], more, depth, stack, w1)
        case WireAbort(_, _) =>
        case Wired(incoming', w') =>
          if ds[0] !in s.starts {
            forall p | Draws(s, c, ds[0], p) ensures DrawnFrom(w', incoming', ds[0], p) {
              DrawnFromMore(w1, w', more, incoming', ds[0], p);
            }
          }
    }
  }

  lemma {:induction false} WireInputCompletes(
    s: Search, target: Iri, c: Iri, goal: Iri, d: Iri, incoming: seq<Wire>, depth: nat, stack: set<Iri>, above: Walk, w: Walk)
    requires Acyclic(s.cat) && Complete(s, w) && Live(s, target, above.inFlight, goal, stack) && depth <= s.maxDepth
    requires c in s.cat.Producers(goal) && s.Satisfiable(c, {}) && w.inFlight == above.inFlight + {c}
    requires d in s.cat.Inputs(c) && WiresDrawn(s, w, c, incoming)
    ensures s.WireInput(c, d, incoming, depth, stack, w).Wired? ==>
      var Wired(incoming', w') := s.WireInput(c, d, incoming, depth, stack, w);
      && Complete(s, w') && Extends(w, w') && incoming <= incoming' && WiresDrawn(s, w', c, incoming')
      && (d !in s.starts ==> FanInComplete(s, w', c, incoming', d))
    decreases s.Room(depth), 1, 0
  {
    if d !in s.starts {
      var nxt := stack + {d};
      LiveBelow(s, target, above.inFlight, c, goal, d, stack);
      var admissible := s.EligibleOf(SortByIri(s.cat.Producers(d)), nxt, w);
      forall p | p in s.cat.Producers(d) && s.Satisfiable(p, {}) ensures p in admissible {
        LiveStackIrrelevant(s, p, d, nxt);
        AcyclicHasNoChoiceOnCycle(s, target);
        SatisfiableIsEligible(s, target, w, d, nxt, p);
      }
      forall p | p in admissible ensures s.Satisfiable(p, {}) {
        AdmissibleIsSatisfiable(s, p, nxt, w);
      }
      ChosenAreDrawn(s, c, d, nxt, w, admissible);
      FanInCompletes(s, target, c, s.Chosen(c, admissible), d, incoming, depth + 1, nxt, w);
    }
  }

  /** With the eligible producers the satisfiable ones, what is chosen is just what should be drawn from. */
  lemma ChosenAreDrawn(s: Search, c: Iri, d: Iri, stack: set<Iri>, w: Walk, admissible: seq<Iri>)
    requires admissible == s.EligibleOf(SortByIri(s.cat.Producers(d)), stack, w)
    requires forall p :: p in admissible <==> p in s.cat.Producers(d) && s.Satisfiable(p, {})
    ensures forall p :: p in s.Chosen(c, admissible) <==> Draws(s, c, d, p)
  {
    EligibleSorted(s, SortByIri(s.cat.Producers(d)), stack, w);
    if s.cat.GroupOf(c) != Fold && admissible != [] {
      var first := admissible[0];
      forall q | q in admissible ensures Leq(first, q) {
        var k :| 0 <= k < |admissible| && admissible[k] == q;
        TextLeqTotal(first.text, first.text);
      }
      assert first in admissible;
      forall p | Draws(s, c, d, p) ensures p == first { TextLeqOneWay(p.text, first.text); }
    }
  }

  lemma {:induction false} EligibleSorted(s: Search, ps: seq<Iri>, stack: set<Iri>, w: Walk)
    requires Sorted(ps)
    ensures Sorted(s.EligibleOf(ps, stack, w))
  {
    if ps != [] {
      var rest := s.EligibleOf(ps[1..], stack, w);
      EligibleSorted(s, ps[1..], stack, w);
      forall q | q in rest ensures Leq(ps[0], q) {
        var k :| 0 <= k < |ps[1..]| && ps[1..][k] == q;
        assert ps[k + 1] == q;
      }
      assert forall j | 0 <= j < |rest| :: rest[j] in rest;
    }
  }

  lemma AcyclicHasNoChoiceOnCycle(s: Search, target: Iri)
    requires Acyclic(s.cat)
    ensures NoChoiceOnCycle(s, target)
  {}

  lemma AdmissibleIsSatisfiable(s: Search, p: Iri, stack: set<Iri>, w: Walk)
    requires Complete(s, w) && s.Eligible(p, stack, w)
    ensures s.Satisfiable(p, {})
  {
    if p in w.fired {
      assert s.Satisfiable(w.steps[w.fired[p]].capacity, {});
    } else {
      forall i | i in s.cat.Inputs(p) && DsReachable(s.cat, s.starts, i, stack) ensures DsReachable(s.cat, s.starts, i, {}) {
        ReachableAntitoneInStack(s.cat, s.starts, i, {}, stack);
      }
    }
  }

  lemma {:induction false} FanInCompletes(
    s: Search, target: Iri, c: Iri, ps: seq<Iri>, d: Iri, incoming: seq<Wire>, depth: nat, stack: set<Iri>, w: Walk)
    requires Acyclic(s.cat) && Complete(s, w) && Live(s, target, w.inFlight, d, stack) && WiresDrawn(s, w, c, incoming)
    requires forall p | p in ps :: p !in w.inFlight && Draws(s, c, d, p)
    ensures DrawsAll(s, s.FanIn(ps, d, incoming, depth, stack, w), c, ps, d, incoming, w)
    decreases s.Room(depth), 4, |ps|
  {
    if ps != [] {
      assert ps[0] in ps && forall p | p in ps[1..] :: p in ps;
      FireCompletes(s, target, ps[0], d, depth, stack, w);
      match s.Fire(ps[0], depth, stack, w)
      case FireAbort(_, _) =>
      case Fired(i, w1) =>
        var more := incoming + [Wire(i, d)];
        WiresDrawnMore(s, w, w1, c, incoming, Wire(i, d));
        FanInCompletes(s, target, c, ps[1..], d, more, depth, stack, w1);
        DrawsOneMore(s, s.FanIn(ps[1..], d, more, depth, stack, w1), c, ps, d, incoming, w, i, w1);
    }
  }

  lemma WiresDrawnMore(s: Search, w: Walk, w': Walk, c: Iri, incoming: seq<Wire>, x: Wire)
    requires WiresDrawn(s, w, c, incoming) && w.steps <= w'.steps
    requires 0 <= x.producer < |w'.steps| && Draws(s, c, x.datastate, w'.steps[x.producer].capacity)
    ensures WiresDrawn(s, w', c, incoming + [x])
  {}

  /** What fanning in leaves: everything complete, and each of the producers drawn from. */
  ghost predicate DrawsAll(s: Search, r: WireResult, c: Iri, ps: seq<Iri>, d: Iri, incoming: seq<Wire>, w: Walk) {
    r.Wired? ==>
      && Complete(s, r.walk) && Extends(w, r.walk) && incoming <= r.incoming && WiresDrawn(s, r.walk, c, r.incoming)
      && forall p | p in ps :: DrawnFrom(r.walk, r.incoming, d, p)
  }

  lemma DrawsOneMore(s: Search, r: WireResult, c: Iri, ps: seq<Iri>, d: Iri, incoming: seq<Wire>, w: Walk, i: nat, w1: Walk)
    requires ps != [] && Extends(w, w1) && i < |w1.steps| && w1.steps[i].capacity == ps[0]
    requires DrawsAll(s, r, c, ps[1..], d, incoming + [Wire(i, d)], w1)
    ensures DrawsAll(s, r, c, ps, d, incoming, w)
  {
    var more := incoming + [Wire(i, d)];
    assert more[|incoming|] == Wire(i, d);
    assert DrawnFrom(w1, more, d, ps[0]);
    if r.Wired? {
      DrawnFromMore(w1, r.walk, more, r.incoming, d, ps[0]);
      forall p | p in ps ensures DrawnFrom(r.walk, r.incoming, d, p) {
        if p != ps[0] { assert p in ps[1..]; }
      }
    }
  }

  lemma EmitCompletes(s: Search, w: Walk, c: Iri, incoming: seq<Wire>)
    requires Complete(s, w) && c in w.inFlight && s.Satisfiable(c, {}) && WiresDrawn(s, w, c, incoming)
    requires forall d | d in s.cat.Inputs(c) && d !in s.starts :: FanInComplete(s, w, c, incoming, d)
    ensures var w' := s.Emit(w, c, incoming);
      Complete(s, w') && w.steps <= w'.steps && w.edges <= w'.edges
  {
    EmitDraws(s, w, c, incoming);
    EmitDrawn(s, w, c, incoming);
  }

  lemma EmitDraws(s: Search, w: Walk, c: Iri, incoming: seq<Wire>)
    requires StepsDraw(s, w.steps, w.edges) && forall d | d in s.cat.Inputs(c) && d !in s.starts :: FanInComplete(s, w, c, incoming, d)
    ensures var w' := s.Emit(w, c, incoming); StepsDraw(s, w'.steps, w'.edges)
  {
    var w' := s.Emit(w, c, incoming);
    var n := |w.steps|;
    forall i, d, p | 0 <= i < |w'.steps| && d in w'.steps[i].inputs && d !in s.starts && Draws(s, w'.steps[i].capacity, d, p)
      ensures EdgeFrom(w'.steps, w'.edges, i, d, p)
    {
      if i < n {
        assert EdgeFrom(w.steps, w.edges, i, d, p);
        var e :| e in w.edges && e.consumer == i && e.datastate == d && 0 <= e.producer < |w.steps| && w.steps[e.producer].capacity == p;
        assert e in w'.edges;
      } else {
        assert DrawnFrom(w, incoming, d, p);
        var k :|
          && 0 <= k < |incoming| && incoming[k].datastate == d
          && 0 <= incoming[k].producer < |w.steps| && w.steps[incoming[k].producer].capacity == p;
        assert EdgesInto(incoming, n)[k] in w'.edges;
      }
    }
  }

  lemma EmitDrawn(s: Search, w: Walk, c: Iri, incoming: seq<Wire>)
    requires EdgesDrawn(s, w.steps, w.edges) && WiresDrawn(s, w, c, incoming)
    ensures var w' := s.Emit(w, c, incoming); EdgesDrawn(s, w'.steps, w'.edges)
  {
    var w' := s.Emit(w, c, incoming);
    var into := EdgesInto(incoming, |w.steps|);
    forall e | e in w'.edges && e.datastate !in s.starts
      ensures 0 <= e.producer < |w'.steps| && 0 <= e.consumer < |w'.steps|
      ensures Draws(s, w'.steps[e.consumer].capacity, e.datastate, w'.steps[e.producer].capacity)
    {
      if e !in w.edges {
        var k :| 0 <= k < |into| && into[k] == e;
        assert incoming[k] in incoming;
      }
    }
  }

  /** On an acyclic catalog, wherever the search finds a route: an input that is no start comes from all the producers that
      are satisfiable, if the step is a fold, and otherwise from the one that is first by IRI; and from nothing else. */
  lemma RoutesDrawExactly(s: Search, target: Iri, i: nat, d: Iri, p: Iri)
    requires Acyclic(s.cat) && s.Find(target).Route? && i < |s.Find(target).pipeline.steps|
    requires d in s.Find(target).pipeline.steps[i].inputs && d !in s.starts
    ensures var r := s.Find(target).pipeline; EdgeFrom(r.steps, r.edges, i, d, p) <==> Draws(s, r.steps[i].capacity, d, p)
  {
    var chosen := s.FindFires(target);
    ReachesItself(s.cat, target);
    FireCompletes(s, target, chosen, target, 0, {}, NewWalk);
  }

  /** A step that is no fold draws each input that is no start from the first by IRI of the producers that what is derivable
      satisfies. */
  lemma StepsDrawFromTheFirst(s: Search, target: Iri, i: nat, d: Iri, p: Iri, derivable: set<Iri>)
    requires Acyclic(s.cat) && s.Find(target).Route? && i < |s.Find(target).pipeline.steps|
    requires s.cat.GroupOf(s.Find(target).pipeline.steps[i].capacity) != Fold
    requires d in s.Find(target).pipeline.steps[i].inputs && d !in s.starts
    requires forall x :: x in derivable <==> Derivable(s.cat, s.starts, x)
    ensures var r := s.Find(target).pipeline;
      EdgeFrom(r.steps, r.edges, i, d, p) <==>
        && p in s.cat.Producers(d) && Satisfied(s.cat, p, derivable)
        && forall q | q in s.cat.Producers(d) && Satisfied(s.cat, q, derivable) :: Leq(p, q)
  {
    RoutesDrawExactly(s, target, i, d, p);
    FirstExactly(s, s.Find(target).pipeline.steps[i].capacity, d, p, derivable);
  }

  lemma FirstExactly(s: Search, c: Iri, d: Iri, p: Iri, derivable: set<Iri>)
    requires s.cat.GroupOf(c) != Fold && forall x :: x in derivable <==> Derivable(s.cat, s.starts, x)
    ensures Draws(s, c, d, p) <==>
      && p in s.cat.Producers(d) && Satisfied(s.cat, p, derivable)
      && forall q | q in s.cat.Producers(d) && Satisfied(s.cat, q, derivable) :: Leq(p, q)
  {
    forall q | q in s.cat.Producers(d) ensures s.Satisfiable(q, {}) <==> Satisfied(s.cat, q, derivable) {
      CapSatisfiableFromDerivable(s.cat, s.starts, q, derivable);
    }
  }

  /** On an acyclic catalog, whatever its groups, with enough depth: found iff derivable, and a fold step
      draws an input from a capacity exactly when that capacity produces it and is itself satisfiable. */
  lemma FoldsDrawFromAllDerivableProducers(s: Search, target: Iri, i: nat, d: Iri, p: Iri)
    requires Acyclic(s.cat) && s.Find(target).Route?
    requires i < |s.Find(target).pipeline.steps|
    requires s.cat.GroupOf(s.Find(target).pipeline.steps[i].capacity) == Fold
    requires d in s.Find(target).pipeline.steps[i].inputs && d !in s.starts
    ensures var r := s.Find(target).pipeline;
      EdgeFrom(r.steps, r.edges, i, d, p) <==> p in s.cat.Producers(d) && s.Satisfiable(p, {})
  {
    RoutesDrawExactly(s, target, i, d, p);
  }

  /** In terms of derivability alone: the producers drawn from are those that what is derivable satisfies. */
  lemma FoldsDrawFromDerivable(s: Search, target: Iri, i: nat, d: Iri, p: Iri, derivable: set<Iri>)
    requires Acyclic(s.cat) && s.Find(target).Route?
    requires i < |s.Find(target).pipeline.steps|
    requires s.cat.GroupOf(s.Find(target).pipeline.steps[i].capacity) == Fold
    requires d in s.Find(target).pipeline.steps[i].inputs && d !in s.starts
    requires forall x :: x in derivable <==> Derivable(s.cat, s.starts, x)
    ensures var r := s.Find(target).pipeline;
      EdgeFrom(r.steps, r.edges, i, d, p) <==> p in s.cat.Producers(d) && Satisfied(s.cat, p, derivable)
  {
    FoldsDrawFromAllDerivableProducers(s, target, i, d, p);
    if p in s.cat.Producers(d) { CapSatisfiableFromDerivable(s.cat, s.starts, p, derivable); }
  }
}
