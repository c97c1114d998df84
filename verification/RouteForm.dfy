/** Every conjunction route, on every catalog, is well formed and can be dispatched. */
module RouteForm {
  import opened Identifiers
  import opened Catalogs
  import opened Reachability
  import opened Pipelines
  import opened Conjunction

  // ---- the invariant of a construction walk ----

  /** `fired` and `steps` say the same thing, and nothing fired is still under construction. */
  ghost predicate Indexed(w: Walk) {
    && (forall c | c in w.fired :: w.fired[c] < |w.steps| && w.steps[w.fired[c]].capacity == c && c !in w.inFlight)
    && (forall i | 0 <= i < |w.steps| :: w.steps[i].capacity in w.fired && w.fired[w.steps[i].capacity] == i)
  }

  ghost predicate StepsMatch(cat: Catalog, w: Walk) {
    forall i | 0 <= i < |w.steps| :: IsStepOf(cat, w.steps[i])
  }

  ghost predicate EdgesFit(starts: set<Iri>, w: Walk) {
    forall e | e in w.edges :: EdgeFits(starts, w.steps, e)
  }

  /** Every input an `all_required` step declares is wired, and so is every start any step declares. */
  ghost predicate InputsWired(cat: Catalog, starts: set<Iri>, w: Walk) {
    forall i, d | 0 <= i < |w.steps| && d in w.steps[i].inputs ::
      cat.GroupOf(w.steps[i].capacity) == AllRequired || d in starts ==> WiredAt(w.edges, i, d)
  }

  ghost predicate Good(s: Search, w: Walk) {
    Indexed(w) && StepsMatch(s.cat, w) && EdgesFit(s.starts, w) && InputsWired(s.cat, s.starts, w)
  }

  /** The walk only ever grows, and everything under construction stays so. */
  ghost predicate Grows(w: Walk, w': Walk) {
    && w.steps <= w'.steps && w.edges <= w'.edges
    && w.inFlight == w'.inFlight
  }

  ghost predicate WireFits(s: Search, w: Walk, x: Wire) {
    if x.producer == START then x.datastate in s.starts
    else 0 <= x.producer < |w.steps| && x.datastate in w.steps[x.producer].outputs
  }

  ghost predicate WiresFit(s: Search, w: Walk, incoming: seq<Wire>) {
    forall x | x in incoming :: WireFits(s, w, x)
  }

  predicate Carries(incoming: seq<Wire>, d: Iri) { exists x :: x in incoming && x.datastate == d }
  predicate Draws(incoming: seq<Wire>, i: int) { exists x :: x in incoming && x.producer == i }

  /** Every step from `base` on feeds a later one, or is about to feed the capacity being wired. */
  ghost predicate Consumed(w: Walk, base: nat, incoming: seq<Wire>) {
    forall i | base <= i < |w.steps| :: Feeds(w.edges, i) || Draws(incoming, i)
  }

  /** Every step from `base` on, save `last`, feeds a later one. */
  ghost predicate FeedBut(w: Walk, base: nat, last: nat) {
    forall i | base <= i < |w.steps| && i != last :: Feeds(w.edges, i)
  }

  /** A capacity that `fire` may be asked for. */
  ghost predicate Admitted(s: Search, c: Iri, w: Walk) {
    c in s.cat.caps && !s.cat.Refused(c) && c !in w.inFlight
  }

  // ---- what each call keeps ----

  lemma {:induction false} FireKeeps(s: Search, c: Iri, depth: nat, stack: set<Iri>, w: Walk)
    requires Good(s, w) && Admitted(s, c, w)
    ensures s.Fire(c, depth, stack, w).Fired? ==>
      var Fired(i, w') := s.Fire(c, depth, stack, w);
      && Good(s, w') && Grows(w, w')
      && i < |w'.steps| && w'.steps[i].capacity == c
      && FeedBut(w', |w.steps|, i)
    decreases s.Room(depth), 3, 0
  {
    if c !in w.fired && depth <= s.maxDepth {
      var w0 := w.(inFlight := w.inFlight + {c});
      assert Good(s, w0);
      WireInputsKeep(s, c, s.cat.Inputs(c), [], depth, stack, w0, |w.steps|);
      match s.WireInputs(c, s.cat.Inputs(c), [], depth, stack, w0)
      case WireAbort(_, _) =>
      case Wired(incoming, w1) =>
        EmitKeeps(s, w1, c, incoming, |w.steps|);
        assert w1.inFlight - {c} == w.inFlight;
    }
  }

  lemma {:induction false} WireInputsKeep(
    s: Search, c: Iri, ds: seq<Iri>, incoming: seq<Wire>, depth: nat, stack: set<Iri>, w: Walk, base: nat)
    requires Good(s, w) && depth <= s.maxDepth && base <= |w.steps|
    requires WiresFit(s, w, incoming) && Consumed(w, base, incoming)
    ensures s.WireInputs(c, ds, incoming, depth, stack, w).Wired? ==>
      var Wired(incoming', w') := s.WireInputs(c, ds, incoming, depth, stack, w);
      && Good(s, w') && Grows(w, w') && incoming <= incoming'
      && WiresFit(s, w', incoming') && Consumed(w', base, incoming')
      && (forall x | x in incoming' :: x in incoming || x.datastate in ds)
      && (forall d | d in ds && (s.cat.GroupOf(c) == AllRequired || d in s.starts) :: Carries(incoming', d))
    decreases s.Room(depth), 2, |ds|
  {
    if ds != [] {
      WireInputKeeps(s, c, ds[0], incoming, depth, stack, w, base);
      match s.WireInput(c, ds[0], incoming, depth, stack, w)
      case WireAbort(_, _) =>
      case Wired(more, w1) =>
        WireInputsKeep(s, c, ds[1..], more, depth, stack, w1, base);
    }
  }

  lemma {:induction false} WireInputKeeps(
    s: Search, c: Iri, d: Iri, incoming: seq<Wire>, depth: nat, stack: set<Iri>, w: Walk, base: nat)
    requires Good(s, w) && depth <= s.maxDepth && base <= |w.steps|
    requires WiresFit(s, w, incoming) && Consumed(w, base, incoming)
    ensures s.WireInput(c, d, incoming, depth, stack, w).Wired? ==>
      var Wired(incoming', w') := s.WireInput(c, d, incoming, depth, stack, w);
      && Good(s, w') && Grows(w, w') && incoming <= incoming'
      && WiresFit(s, w', incoming') && Consumed(w', base, incoming')
      && (forall x | x in incoming' :: x in incoming || x.datastate == d)
      && (s.cat.GroupOf(c) == AllRequired || d in s.starts ==> Carries(incoming', d))
    decreases s.Room(depth), 1, 0
  {
    if d in s.starts {
      assert (incoming + [Wire(START, d)])[|incoming|] == Wire(START, d);
    } else {
      var nxt := stack + {d};
      var admissible := s.EligibleOf(SortByIri(s.cat.Producers(d)), nxt, w);
      forall p | p in admissible ensures Admitted(s, p, w) && d in s.cat.Outputs(p) {
        EligibleIsAdmitted(s, p, d, nxt, w);
      }
      FanInKeeps(s, s.Chosen(c, admissible), d, incoming, depth + 1, nxt, w, base);
    }
  }

  lemma EligibleIsAdmitted(s: Search, p: Iri, d: Iri, stack: set<Iri>, w: Walk)
    requires Good(s, w) && p in s.cat.Producers(d) && s.Eligible(p, stack, w)
    ensures Admitted(s, p, w) && d in s.cat.Outputs(p)
  {
    if p in w.fired { assert IsStepOf(s.cat, w.steps[w.fired[p]]); }
  }

  lemma {:induction false} FanInKeeps(
    s: Search, ps: seq<Iri>, d: Iri, incoming: seq<Wire>, depth: nat, stack: set<Iri>, w: Walk, base: nat)
    requires Good(s, w) && base <= |w.steps|
    requires WiresFit(s, w, incoming) && Consumed(w, base, incoming)
    requires forall p | p in ps :: Admitted(s, p, w) && d in s.cat.Outputs(p)
    ensures s.FanIn(ps, d, incoming, depth, stack, w).Wired? ==>
      var Wired(incoming', w') := s.FanIn(ps, d, incoming, depth, stack, w);
      && Good(s, w') && Grows(w, w') && incoming <= incoming'
      && WiresFit(s, w', incoming') && Consumed(w', base, incoming')
      && (forall x | x in incoming' :: x in incoming || x.datastate == d)
      && (ps != [] ==> Carries(incoming', d))
    decreases s.Room(depth), 4, |ps|
  {
    if ps != [] {
      FireKeeps(s, ps[0], depth, stack, w);
      match s.Fire(ps[0], depth, stack, w)
      case FireAbort(_, _) =>
      case Fired(i, w1) =>
        var more := incoming + [Wire(i, d)];
        AddWire(s, w, w1, i, ps[0], d, incoming, base);
        assert forall p | p in ps[1..] :: p in ps;
        FanInKeeps(s, ps[1..], d, more, depth, stack, w1, base);
    }
  }

  lemma AddWire(s: Search, w: Walk, w': Walk, i: nat, p: Iri, d: Iri, incoming: seq<Wire>, base: nat)
    requires Grows(w, w') && StepsMatch(s.cat, w') && base <= |w.steps|
    requires i < |w'.steps| && w'.steps[i].capacity == p && d in s.cat.Outputs(p)
    requires WiresFit(s, w, incoming) && Consumed(w, base, incoming)
    requires FeedBut(w', |w.steps|, i)
    ensures var more := incoming + [Wire(i, d)];
      WiresFit(s, w', more) && Consumed(w', base, more) && Carries(more, d)
  {
    var more := incoming + [Wire(i, d)];
    assert more[|incoming|] == Wire(i, d);
    assert IsStepOf(s.cat, w'.steps[i]);
    forall x | x in more ensures WireFits(s, w', x) {
      if x in incoming { assert WireFits(s, w, x); }
    }
    forall j | base <= j < |w'.steps| ensures Feeds(w'.edges, j) || Draws(more, j) {
      if j < |w.steps| {
        GrowthKeepsConsumed(w, w', incoming, more, j);
      } else if j == i {
        assert Draws(more, j);
      }
    }
  }

  lemma GrowthKeepsConsumed(w: Walk, w': Walk, incoming: seq<Wire>, more: seq<Wire>, j: int)
    requires w.edges <= w'.edges && incoming <= more && (Feeds(w.edges, j) || Draws(incoming, j))
    ensures Feeds(w'.edges, j) || Draws(more, j)
  {
    if Feeds(w.edges, j) {
      var e :| e in w.edges && e.producer == j;
      assert e in w'.edges;
    } else {
      var x :| x in incoming && x.producer == j;
      assert x in more;
    }
  }

  /** Appending the step of `c` with its wires. */
  lemma {:induction false} EmitKeeps(s: Search, w: Walk, c: Iri, incoming: seq<Wire>, base: nat)
    requires Good(s, w) && c in s.cat.caps && !s.cat.Refused(c) && c in w.inFlight && base <= |w.steps|
    requires WiresFit(s, w, incoming) && Consumed(w, base, incoming)
    requires forall x | x in incoming :: x.datastate in s.cat.Inputs(c)
    requires forall d | d in s.cat.Inputs(c) && (s.cat.GroupOf(c) == AllRequired || d in s.starts) :: Carries(incoming, d)
    ensures var w' := s.Emit(w, c, incoming);
      && Good(s, w') && w.steps <= w'.steps && w.edges <= w'.edges
      && FeedBut(w', base, |w.steps|)
  {
    var w' := s.Emit(w, c, incoming);
    var n := |w.steps|;
    var into := EdgesInto(incoming, n);
    assert Indexed(w');
    forall e | e in w'.edges ensures EdgeFits(s.starts, w'.steps, e) {
      if e in w.edges {
        assert EdgeFits(s.starts, w.steps, e);
      } else {
        var k :| 0 <= k < |into| && into[k] == e;
        assert WireFits(s, w, incoming[k]);
      }
    }
    forall i, d | 0 <= i < |w'.steps| && d in w'.steps[i].inputs
      && (s.cat.GroupOf(w'.steps[i].capacity) == AllRequired || d in s.starts)
      ensures WiredAt(w'.edges, i, d)
    {
      if i < n {
        assert WiredAt(w.edges, i, d);
        var e :| e in w.edges && e.consumer == i && e.datastate == d;
        assert e in w'.edges;
      } else {
        assert Carries(incoming, d);
        var k :| 0 <= k < |incoming| && incoming[k].datastate == d;
        assert into[k] in w'.edges;
      }
    }
    forall i | base <= i < n ensures Feeds(w'.edges, i) {
      if Feeds(w.edges, i) {
        var e :| e in w.edges && e.producer == i;
        assert e in w'.edges;
      } else {
        var k :| 0 <= k < |incoming| && incoming[k].producer == i;
        assert into[k] in w'.edges;
      }
    }
  }

  // ---- the route ----

  /** The shape every consumer of a route relies on. */
  ghost predicate WellFormed(cat: Catalog, p: Pipeline) {
    if p.steps == [] then p.target in p.starts && p.edges == []
    else
      && (forall i | 0 <= i < |p.steps| :: IsStepOf(cat, p.steps[i]))
      && Distinct(p.steps)
      && (forall e | e in p.edges :: EdgeFits(p.starts, p.steps, e))
      && (forall i, d | 0 <= i < |p.steps| && d in p.steps[i].inputs ::
            cat.GroupOf(p.steps[i].capacity) == AllRequired || d in p.starts ==> WiredAt(p.edges, i, d))
      && (forall i | 0 <= i < |p.steps| - 1 :: Feeds(p.edges, i))
      && p.target in p.steps[|p.steps| - 1].outputs
  }

  lemma GoodWalkIsWellFormed(s: Search, target: Iri, w: Walk)
    requires Good(s, w) && w.steps != [] && FeedBut(w, 0, |w.steps| - 1)
    requires target in s.cat.Outputs(w.steps[|w.steps| - 1].capacity)
    ensures WellFormed(s.cat, Pipeline(s.starts, target, w.steps, w.edges))
  {
    assert IsStepOf(s.cat, w.steps[|w.steps| - 1]);
  }

  lemma FiredWalkIsWellFormed(s: Search, target: Iri, c: Iri, w: Walk)
    requires c in s.cat.Producers(target) && s.Satisfiable(c, {})
    requires Good(s, w) && Admitted(s, c, w) && w.steps == []
    requires s.Fire(c, 0, {}, w).Fired?
    ensures WellFormed(s.cat, Pipeline(s.starts, target, s.Fire(c, 0, {}, w).walk.steps, s.Fire(c, 0, {}, w).walk.edges))
  {
    FireKeeps(s, c, 0, {}, w);
    FiredLast(s, c, 0, {}, w);
    GoodWalkIsWellFormed(s, target, s.Fire(c, 0, {}, w).walk);
  }

  /** Whatever the catalog, cyclic or not, a route found is well formed and starts from the given starts. */
  lemma FoundRouteIsWellFormed(s: Search, target: Iri)
    requires s.Find(target).Route?
    ensures var p := s.Find(target).pipeline;
      p.starts == s.starts && p.target == target && WellFormed(s.cat, p)
  {
    if target !in s.starts {
      var c := FoundIsFired(s, target);
      NewWalkIsGood(s, c, target);
      FiredWalkIsWellFormed(s, target, c, NewWalk);
    }
  }

  lemma FoundIsFired(s: Search, target: Iri) returns (c: Iri)
    requires target !in s.starts && s.Find(target).Route?
    ensures c in s.cat.Producers(target) && s.Satisfiable(c, {}) && s.Fire(c, 0, {}, NewWalk).Fired?
    ensures var w := s.Fire(c, 0, {}, NewWalk).walk; s.Find(target).pipeline == Pipeline(s.starts, target, w.steps, w.edges)
  {
    c := s.FindFires(target);
  }

  lemma NewWalkIsGood(s: Search, c: Iri, target: Iri)
    requires c in s.cat.Producers(target) && s.Satisfiable(c, {})
    ensures Good(s, NewWalk) && Admitted(s, c, NewWalk)
  {}

  lemma FiredLast(s: Search, c: Iri, depth: nat, stack: set<Iri>, w: Walk)
    requires c !in w.fired && s.Fire(c, depth, stack, w).Fired?
    ensures var Fired(i, w') := s.Fire(c, depth, stack, w); i == |w'.steps| - 1
  {}

  /** Running a route in order, every step finds what its group asks for on the blackboard: all of an `all_required`
      step's inputs, one of an `any_of` step's as soon as one is wired. So the input check refuses it for nothing but an
      operand list of the wrong length, and for that exactly when there is one. */
  lemma WellFormedRouteRuns(cat: Catalog, p: Pipeline, i: nat, board: map<Iri, Shape>, arity: map<Iri, int>)
    requires WellFormed(cat, p) && i < |p.steps| && CONTEXT !in p.steps[i].inputs
    requires cat.GroupOf(p.steps[i].capacity) != AnyOf || p.steps[i].inputs == [] || exists d :: d in p.steps[i].inputs && WiredAt(p.edges, i, d)
    requires board.Keys == Blackboard(p.starts, p.steps, i)
    ensures InputsPresent(cat, p.steps[i].capacity, board.Keys)
    ensures ValidateInputs(cat, p.steps[i].capacity, Handed(p.steps[i], board), arity) ==
      if cat.GroupOf(p.steps[i].capacity) == Fold || OperandsFit(Handed(p.steps[i], board), arity) then None else Some(OperandArity)
  {
    assert IsStepOf(cat, p.steps[i]);
    forall d | d in p.steps[i].inputs && WiredAt(p.edges, i, d) ensures d in Blackboard(p.starts, p.steps, i) {
      var e :| e in p.edges && e.consumer == i && e.datastate == d;
      assert EdgeFits(p.starts, p.steps, e);
      BlackboardHolds(p.starts, p.steps, i, d);
    }
    if cat.GroupOf(p.steps[i].capacity) != Fold { HandedIsExpected(cat, p.steps[i], board, arity); }
  }
}
