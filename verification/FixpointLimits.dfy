/** What the exact dependency test costs on a cycle: a route the shipped finder has, and the replacement has not. */
module FixpointLimits {
  import opened Identifiers
  import opened Catalogs
  import opened Pipelines
  import opened Dependency
  import opened Conjunction
  import opened Agreement
  import opened FixpointFinder

  /** The names of four capacities and four DataStates, all different. */
  datatype Names = Names(c: Iri, p: Iri, q: Iri, r: Iri, d: Iri, o: Iri, t: Iri, x: Iri)
  {
    predicate Different() {
      && c != p && c != q && c != r && p != q && p != r && q != r
      && d != o && d != t && d != x && o != t && o != x && t != x
    }
  }

  /** `q` makes `x` from nothing, `p` makes `d` from `x`, `c` makes `t` and `o` from `d`, and `r` makes `x`
      again from `o`. */
  ghost predicate IsKnot(cat: Catalog, n: Names) {
    && n.Different()
    && (forall k :: k in cat.caps <==> k == n.c || k == n.p || k == n.q || k == n.r)
    && cat.caps[n.c] == Capacity([n.d], [n.t, n.o], AllRequired, false)
    && cat.caps[n.p] == Capacity([n.x], [n.d], AllRequired, false)
    && cat.caps[n.q] == Capacity([], [n.x], AllRequired, false)
    && cat.caps[n.r] == Capacity([n.o], [n.x], AllRequired, false)
  }

  /** Such a catalog for any choice of names. */
  lemma KnotExists(n: Names) returns (cat: Catalog)
    requires n.Different()
    ensures IsKnot(cat, n)
  {
    var caps := map[
      n.c := Capacity([n.d], [n.t, n.o], AllRequired, false), n.p := Capacity([n.x], [n.d], AllRequired, false),
      n.q := Capacity([], [n.x], AllRequired, false), n.r := Capacity([n.o], [n.x], AllRequired, false)];
    var raw := RawCatalog(caps, map[n.t := [n.c], n.o := [n.c], n.d := [n.p], n.x := [n.q, n.r]],
      map[n.d := [n.c], n.x := [n.p], n.o := [n.r]]);
    KnotWalks(n, raw);
    cat := raw;
  }

  lemma KnotWalks(n: Names, raw: RawCatalog)
    requires n.Different() && raw.caps.Keys == {n.c, n.p, n.q, n.r}
    requires raw.caps[n.c] == Capacity([n.d], [n.t, n.o], AllRequired, false) && raw.caps[n.p] == Capacity([n.x], [n.d], AllRequired, false)
    requires raw.caps[n.q] == Capacity([], [n.x], AllRequired, false) && raw.caps[n.r] == Capacity([n.o], [n.x], AllRequired, false)
    requires raw.producers == map[n.t := [n.c], n.o := [n.c], n.d := [n.p], n.x := [n.q, n.r]]
    requires raw.consumers == map[n.d := [n.c], n.x := [n.p], n.o := [n.r]]
    ensures raw.Valid()
  {
    forall d, k ensures k in raw.Producers(d) <==> k in raw.caps && d in raw.caps[k].outputs {
      assert k in raw.caps ==> k == n.c || k == n.p || k == n.q || k == n.r;
    }
    forall d, k ensures k in raw.Consumers(d) <==> k in raw.caps && d in raw.caps[k].inputs {
      assert k in raw.caps ==> k == n.c || k == n.p || k == n.q || k == n.r;
    }
  }

  lemma KnotIsDerivable(cat: Catalog, n: Names, d: Iri)
    requires IsKnot(cat, n) && d in {n.d, n.o, n.t, n.x}
    ensures Derivable(cat, {}, d)
  {
    forall s: set<Iri> | Closed(cat, {}, {}, s) ensures d in s {
      assert Satisfied(cat, n.q, s) && n.x in cat.Outputs(n.q);
      assert Satisfied(cat, n.p, s) && n.d in cat.Outputs(n.p);
      assert Satisfied(cat, n.c, s) && n.t in cat.Outputs(n.c) && n.o in cat.Outputs(n.c);
    }
  }

  /** If building the one producer of `d` might come to need an output of `c`, nothing may feed `d` to `c`. */
  lemma OnlyProducerRefused(plan: Plan, c: Iri, d: Iri, p: Iri, x: Iri, r: Iri, o: Iri)
    requires plan.Exact() && (forall q | q in plan.g.cat.Producers(d) :: q == p)
    requires p in plan.g.sat && plan.g.Wants(p, x)
    requires r in plan.g.sat && r in plan.g.cat.Producers(x) && plan.g.Wants(r, o) && o in plan.g.cat.Outputs(c)
    ensures plan.Admissible(d, c) == []
  {
    plan.g.DependsDirectly(p, x);
    plan.g.DependsDirectly(r, o);
    plan.g.DependsThrough(p, x, r, o);
    var admissible := plan.Admissible(d, c);
    if admissible != [] { SomeMember(admissible); }
  }

  lemma SomeMember(s: seq<Iri>)
    requires s != []
    ensures exists q :: q in s
  {
    assert s[0] in s;
  }

  /** A capacity that needs an input nothing may feed it is in no construction. */
  lemma NeverConstructed(plan: Plan, c: Iri, d: Iri, steps: seq<Iri>, i: nat)
    requires plan.g.Wants(c, d) && plan.g.cat.GroupOf(c) != AnyOf && plan.Admissible(d, c) == []
    requires Constructed(plan, steps) && i < |steps|
    ensures steps[i] != c
  {
    var idx :| plan.InOrder(steps, idx);
    assert plan.StepFed(idx, steps[i], i);
    assert plan.g.Wants(steps[i], d) ==> plan.FedBefore(idx, steps[i], d, i);
  }

  lemma KnotSatisfied(cat: Catalog, n: Names)
    requires IsKnot(cat, n)
    ensures n.p in PlanOf(cat, {}).g.sat && n.r in PlanOf(cat, {}).g.sat
  {
    KnotIsDerivable(cat, n, n.x);
    KnotIsDerivable(cat, n, n.o);
    assert Satisfied(cat, n.p, DerivableSet(cat, {})) && Satisfied(cat, n.r, DerivableSet(cat, {}));
  }

  /** No construction the replacement may return reaches the target, derivable though it is. */
  lemma ReplacementLosesRoute(cat: Catalog, n: Names, steps: seq<Iri>)
    requires IsKnot(cat, n) && Constructed(PlanOf(cat, {}), steps)
    ensures Derivable(cat, {}, n.t) && !EndsWith(cat, {}, steps, n.t)
  {
    KnotIsDerivable(cat, n, n.t);
    PlanIsExact(cat, {});
    KnotSatisfied(cat, n);
    KnotIsTied(cat, n, PlanOf(cat, {}));
    NoConstructionEnds(cat, n, PlanOf(cat, {}), steps);
  }

  lemma NoConstructionEnds(cat: Catalog, n: Names, plan: Plan, steps: seq<Iri>)
    requires IsKnot(cat, n) && plan.g.cat == cat && plan.g.Wants(n.c, n.d) && plan.Admissible(n.d, n.c) == []
    requires Constructed(plan, steps)
    ensures !EndsWith(cat, {}, steps, n.t)
  {
    if EndsWith(cat, {}, steps, n.t) {
      KnotEndsWithC(cat, n, steps);
      NeverConstructed(plan, n.c, n.d, steps, |steps| - 1);
    }
  }

  lemma KnotIsTied(cat: Catalog, n: Names, plan: Plan)
    requires IsKnot(cat, n) && plan.Exact() && plan.g.cat == cat && plan.g.starts == {}
    requires n.p in plan.g.sat && n.r in plan.g.sat
    ensures plan.g.Wants(n.c, n.d) && plan.Admissible(n.d, n.c) == []
  {
    assert n.r in cat.Producers(n.x);
    forall q | q in cat.Producers(n.d) ensures q == n.p {
      assert q in cat.caps && n.d in cat.caps[q].outputs;
    }
    OnlyProducerRefused(plan, n.c, n.d, n.p, n.x, n.r, n.o);
  }

  lemma KnotEndsWithC(cat: Catalog, n: Names, steps: seq<Iri>)
    requires IsKnot(cat, n) && EndsWith(cat, {}, steps, n.t)
    ensures steps != [] && steps[|steps| - 1] == n.c
  {}

  lemma KnotUniverse(cat: Catalog, n: Names)
    requires IsKnot(cat, n)
    ensures |NonStarts(Search(cat, {}, 8))| <= 8
  {
    var four := {n.d, n.o, n.t, n.x};
    forall d | d in cat.Universe() ensures d in four {
      var c :| c in cat.caps && (d in cat.caps[c].inputs || d in cat.caps[c].outputs);
      assert c == n.c || c == n.p || c == n.q || c == n.r;
    }
    FourAtMost(n.d, n.o, n.t, n.x);
    SubsetSize(NonStarts(Search(cat, {}, 8)), four);
  }

  lemma FourAtMost(a: Iri, b: Iri, c: Iri, d: Iri)
    ensures |{a, b, c, d}| <= 4
  {
    assert {a, b, c, d} == {a} + {b} + {c} + {d};
  }

  /** The shipped finder reaches it, with no more than the default depth. */
  lemma ShippedFinderKeepsRoute(cat: Catalog, n: Names)
    requires IsKnot(cat, n)
    ensures Search(cat, {}, 8).Find(n.t).Route?
  {
    KnotIsDerivable(cat, n, n.t);
    KnotUniverse(cat, n);
    NoAnyOfAgrees(Search(cat, {}, 8), n.t);
  }
}
