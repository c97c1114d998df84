/** Where the two phases disagree: an `any_of` capacity that its own output leads back to. */
module AnyOfLimits {
  import opened Identifiers
  import opened Catalogs
  import opened Dependency
  import opened Reachability
  import opened Pipelines
  import opened Conjunction
  import opened RouteForm
  import opened Agreement

  const A := Iri("a")
  const B := Iri("b")
  const T := Iri("t")
  const U := Iri("u")
  const X := Iri("x")
  const Y := Iri("y")

  /** `a` makes `t` and `u` from `x` or from `y`; `b` makes `x` from `u`. */
  function Loop(kind: Group): (cat: Catalog) {
    RawCatalog(
      map[A := Capacity([X, Y], [T, U], AnyOf, false), B := Capacity([U], [X], kind, false)],
      map[T := [A], U := [A], X := [B]],
      map[X := [A], Y := [A], U := [B]])
  }

  lemma Alone(x: Iri)
    ensures SortByIri([x]) == [x]
  {}

  /** From `y` alone both capacities are satisfiable, whatever is on the stack except `y`'s own reader. */
  lemma LoopIsSatisfiable(s: Search, kind: Group)
    requires s.cat == Loop(kind) && s.starts == {Y}
    ensures forall stack :: s.Satisfiable(A, stack)
    ensures forall stack | U !in stack :: s.Satisfiable(B, stack)
  {
    forall stack ensures s.Satisfiable(A, stack) {
      assert DsReachable(s.cat, s.starts, Y, stack);
      assert Y in s.cat.Inputs(A);
    }
    forall stack | U !in stack ensures s.Satisfiable(B, stack) {
      assert A in s.cat.Producers(U) && s.Satisfiable(A, stack + {U});
      ProducerMakesReachable(s.cat, s.starts, A, U, stack);
      assert U in s.cat.Inputs(B);
    }
  }

  /** The walk as far as `b`'s only input, whose one producer is under construction. */
  lemma LoopRefusesItsAncestor(s: Search, kind: Group)
    requires s.cat == Loop(kind) && s.starts == {Y} && s.maxDepth >= 1
    ensures var w := NewWalk.(inFlight := {A, B});
      s.WireInput(B, U, [], 1, {X}, w) == if kind == AllRequired then WireAbort(RequiredInputUnproducible, map[B := [U]]) else Wired([], w)
  {
    var w := NewWalk.(inFlight := {A, B});
    Alone(A);
    assert s.EligibleOf([A], {X} + {U}, w) == [];
  }

  lemma LoopFiresB(s: Search, kind: Group)
    requires s.cat == Loop(kind) && s.starts == {Y} && s.maxDepth >= 1
    ensures var w := NewWalk.(inFlight := {A});
      s.Fire(B, 1, {X}, w) ==
        if kind == AllRequired then FireAbort(RequiredInputUnproducible, map[B := [U]])
        else Fired(0, Walk([DagStep(B, [U], [X])], [], map[B := 0], {A}))
  {
    var w := NewWalk.(inFlight := {A});
    var w0 := w.(inFlight := w.inFlight + {B});
    assert w0 == NewWalk.(inFlight := {A, B});
    LoopWiresB(s, kind, w0);
    assert s.cat.Inputs(B) == [U];
    if kind != AllRequired { LoopEmitsB(s, kind, w0); }
  }

  lemma LoopWiresB(s: Search, kind: Group, w0: Walk)
    requires s.cat == Loop(kind) && s.starts == {Y} && s.maxDepth >= 1 && w0 == NewWalk.(inFlight := {A, B})
    ensures s.WireInputs(B, [U], [], 1, {X}, w0) ==
      if kind == AllRequired then WireAbort(RequiredInputUnproducible, map[B := [U]]) else Wired([], w0)
  {
    LoopRefusesItsAncestor(s, kind);
    assert [U][1..] == [];
  }

  lemma LoopEmitsB(s: Search, kind: Group, w0: Walk)
    requires s.cat == Loop(kind) && w0 == NewWalk.(inFlight := {A, B})
    ensures s.Emit(w0, B, []) == Walk([DagStep(B, [U], [X])], [], map[B := 0], {A})
  {
    assert EdgesInto([], 0) == [];
    assert w0.inFlight - {B} == {A};
  }

  lemma LoopWiresX(s: Search, kind: Group)
    requires s.cat == Loop(kind) && s.starts == {Y} && s.maxDepth >= 1
    ensures var w := NewWalk.(inFlight := {A});
      s.WireInput(A, X, [], 0, {}, w) ==
        if kind == AllRequired then WireAbort(RequiredInputUnproducible, map[B := [U]])
        else Wired([Wire(0, X)], Walk([DagStep(B, [U], [X])], [], map[B := 0], {A}))
  {
    var w := NewWalk.(inFlight := {A});
    var nxt := {} + {X};
    assert nxt == {X};
    Alone(B);
    LoopIsSatisfiable(s, kind);
    assert s.EligibleOf([B], nxt, w) == [B];
    assert s.Chosen(A, [B]) == [B];
    LoopFiresB(s, kind);
    if kind != AllRequired {
      var w1 := Walk([DagStep(B, [U], [X])], [], map[B := 0], {A});
      assert s.FanIn([B], X, [], 1, nxt, w) == s.FanIn([B][1..], X, [] + [Wire(0, X)], 1, nxt, w1) == Wired([Wire(0, X)], w1);
    }
  }

  lemma LoopFinds(s: Search, kind: Group)
    requires s.cat == Loop(kind) && s.starts == {Y} && s.maxDepth >= 1
    ensures s.Find(T) == s.Verdict(T, s.Fire(A, 0, {}, NewWalk))
  {
    LoopIsSatisfiable(s, kind);
    assert A in s.cat.Producers(T) && s.Satisfiable(A, {});
    var c := s.FindFires(T);
    assert c == A;
  }

  /** The whole walk. */
  lemma LoopFiresA(s: Search, kind: Group)
    requires s.cat == Loop(kind) && s.starts == {Y} && s.maxDepth >= 1
    ensures s.Fire(A, 0, {}, NewWalk) ==
      if kind == AllRequired then FireAbort(RequiredInputUnproducible, map[B := [U]])
      else Fired(1, s.Emit(Walk([DagStep(B, [U], [X])], [], map[B := 0], {A}), A, [Wire(0, X), Wire(START, Y)]))
  {
    var w0 := NewWalk.(inFlight := NewWalk.inFlight + {A});
    assert w0 == NewWalk.(inFlight := {A});
    LoopWiresX(s, kind);
    if kind != AllRequired {
      var w1 := Walk([DagStep(B, [U], [X])], [], map[B := 0], {A});
      LoopWiresY(s, kind, w1);
      assert [X, Y][1..] == [Y];
      assert s.WireInputs(A, [X, Y], [], 0, {}, w0) == Wired([Wire(0, X), Wire(START, Y)], w1);
    }
  }

  lemma LoopWiresY(s: Search, kind: Group, w: Walk)
    requires s.cat == Loop(kind) && s.starts == {Y} && s.maxDepth >= 1
    ensures s.WireInputs(A, [Y], [Wire(0, X)], 0, {}, w) == Wired([Wire(0, X), Wire(START, Y)], w)
  {
    assert [Wire(0, X)] + [Wire(START, Y)] == [Wire(0, X), Wire(START, Y)];
    assert s.WireInput(A, Y, [Wire(0, X)], 0, {}, w) == Wired([Wire(0, X), Wire(START, Y)], w);
  }

  /** The target is derivable from the starts, phase 1 says so, and the walk aborts all the same. */
  lemma AncestorRefusedAborts(s: Search)
    requires s.cat == Loop(AllRequired) && s.starts == {Y} && s.maxDepth >= 1
    ensures Derivable(s.cat, s.starts, T)
    ensures s.Find(T) == NoRoute(RequiredInputUnproducible, map[B := [U]])
  {
    LoopIsSatisfiable(s, AllRequired);
    SomeSatisfiableProducerIffDerivable(s.cat, s.starts, T);
    assert A in s.cat.Producers(T) && s.Satisfiable(A, {});
    LoopFinds(s, AllRequired);
    LoopFiresA(s, AllRequired);
  }

  /** With `b` an `any_of` too, a route is found whose first step has nothing wired and cannot be dispatched. */
  lemma AncestorRefusedLeavesStepUnfed(s: Search)
    requires s.cat == Loop(AnyOf) && s.starts == {Y} && s.maxDepth >= 1
    ensures s.Find(T).Route?
    ensures var p := s.Find(T).pipeline;
      && p.steps != [] && p.steps[0].capacity == B
      && (forall d :: !WiredAt(p.edges, 0, d))
      && forall board: map<Iri, Shape>, arity: map<Iri, int> | board.Keys == Blackboard(p.starts, p.steps, 0) ::
           ValidateInputs(s.cat, B, Handed(p.steps[0], board), arity) == Some(MissingRequired)
  {
    LoopFinds(s, AnyOf);
    LoopFiresA(s, AnyOf);
    assert EdgesInto([Wire(0, X), Wire(START, Y)], 1) == [DagEdge(0, 1, X), DagEdge(START, 1, Y)];
    FirstStepIsRefused(s, s.Find(T).pipeline);
  }

  lemma FirstStepIsRefused(s: Search, p: Pipeline)
    requires s.cat == Loop(AnyOf) && s.starts == {Y} && p.starts == {Y} && p.steps != [] && p.steps[0] == DagStep(B, [U], [X])
    ensures forall board: map<Iri, Shape>, arity: map<Iri, int> | board.Keys == Blackboard(p.starts, p.steps, 0) ::
      ValidateInputs(s.cat, B, Handed(p.steps[0], board), arity) == Some(MissingRequired)
  {
    forall board: map<Iri, Shape>, arity: map<Iri, int> | board.Keys == Blackboard(p.starts, p.steps, 0)
      ensures ValidateInputs(s.cat, B, Handed(p.steps[0], board), arity) == Some(MissingRequired)
    {
      assert U != CONTEXT;
      HandedIsExpected(s.cat, p.steps[0], board, arity);
    }
  }
}
