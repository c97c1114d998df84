/** The fixpoint replacement with the exact dependency test: construction never comes back to itself. */
module FixpointFinder {
  import opened Identifiers
  import opened Catalogs
  import opened Pipelines
  import opened Dependency
  import opened Strata
  import Graphs

  /** The satisfiable part of a catalog, seen from a start set. */
  datatype Ground = Ground(cat: Catalog, starts: set<Iri>, sat: set<Iri>)
  {
    /** `producers_of` within the satisfiable part, by IRI. */
    function Producers(d: Iri): (r: seq<Iri>)
      ensures forall p :: p in r <==> p in cat.Producers(d) && p in sat
    {
      SortByIri(Keep(cat.Producers(d)))
    }

    function Keep(ps: seq<Iri>): (r: seq<Iri>)
      ensures forall p :: p in r <==> p in ps && p in sat
    {
      if ps == [] then [] else (if ps[0] in sat then [ps[0]] else []) + Keep(ps[1..])
    }

    /** `c` consumes `d`, which is no start. */
    predicate Wants(c: Iri, d: Iri) { d in cat.Inputs(c) && d !in starts }

    // ---- transitive consumption ----

    /** `d` is wanted by a satisfiable producer of `x`. */
    ghost predicate Hop(x: Iri, d: Iri) {
      exists q :: q in sat && q in cat.Producers(x) && Wants(q, d)
    }

    /** From each DataState to those its producers want. */
    ghost function Wanting(): Graphs.Graph<Iri> {
      map x | x in cat.Universe() :: set d | d in cat.Universe() && Hop(x, d)
    }

    lemma NextIsWanted(x: Iri, d: Iri)
      ensures d in Graphs.Next(Wanting(), x) <==> Hop(x, d)
    {
      if q :| q in sat && q in cat.Producers(x) && Wants(q, d) {
        cat.ProducedInUniverse(q, x);
        cat.ConsumedInUniverse(q, d);
      }
    }

    /** Building `c` can come to need `d`. */
    ghost predicate Depends(c: Iri, d: Iri) { exists x :: Wants(c, x) && Graphs.Reaches(Wanting(), x, d) }

    lemma DependsDirectly(c: Iri, d: Iri)
      requires Wants(c, d)
      ensures Depends(c, d)
    {
      assert Graphs.Reaches(Wanting(), d, d);
    }

    lemma DependsThrough(c: Iri, x: Iri, q: Iri, d: Iri)
      requires Depends(c, x) && q in sat && q in cat.Producers(x) && Depends(q, d)
      ensures Depends(c, d)
    {
      var first :| Wants(c, first) && Graphs.Reaches(Wanting(), first, x);
      var y :| Wants(q, y) && Graphs.Reaches(Wanting(), y, d);
      NextIsWanted(x, y);
      Graphs.ReachesStep(Wanting(), first, x, y);
      Graphs.ReachesTransitively(Wanting(), first, y, d);
    }

    // ---- the closure loop ----

    /** Only what is transitively consumed, and at least what is directly consumed. */
    ghost predicate GrowingAt(deps: set<Iri>, c: Iri) {
      && (forall d | d in deps :: Depends(c, d))
      && (forall d | Wants(c, d) :: d in deps)
    }

    ghost predicate Growing(dep: map<Iri, set<Iri>>) {
      dep.Keys == sat && forall c | c in sat :: GrowingAt(dep[c], c)
    }

    /** Some producer of a DataState of `ds` is known to consume `x`. */
    ghost predicate KnownBelow(dep: map<Iri, set<Iri>>, ds: set<Iri>, x: Iri)
      requires dep.Keys == sat
    {
      exists d, q :: d in ds && q in sat && q in cat.Producers(d) && x in dep[q]
    }

    ghost predicate ClosedAt(dep: map<Iri, set<Iri>>, c: Iri)
      requires dep.Keys == sat && c in sat
    {
      forall x :: KnownBelow(dep, dep[c], x) ==> x in dep[c]
    }

    /** The union of what the producers of `ds` are known to consume. */
    function Below(dep: map<Iri, set<Iri>>, ds: set<Iri>): (r: set<Iri>)
      requires dep.Keys == sat
      ensures forall x :: x in r <==> KnownBelow(dep, ds, x)
    {
      set q, d, x | q in sat && d in ds && q in cat.Producers(d) && x in dep[q] :: x
    }

    lemma KnownIsDepends(dep: map<Iri, set<Iri>>, c: Iri, x: Iri)
      requires Growing(dep) && c in sat && KnownBelow(dep, dep[c], x)
      ensures Depends(c, x) && x !in starts
    {
      var d, q :| d in dep[c] && q in sat && q in cat.Producers(d) && x in dep[q];
      assert GrowingAt(dep[c], c) && GrowingAt(dep[q], q);
      DependsThrough(c, d, q, x);
      NotAStart(q, x);
    }

    lemma GrowKeeps(dep: map<Iri, set<Iri>>, c: Iri, more: set<Iri>)
      requires Growing(dep) && c in sat && forall x | x in more :: KnownBelow(dep, dep[c], x)
      ensures Growing(dep[c := dep[c] + more])
    {
      forall x | x in more ensures Depends(c, x) { KnownIsDepends(dep, c, x); }
      assert GrowingAt(dep[c], c);
      assert GrowingAt(dep[c] + more, c);
    }

    /** Nothing left to add makes the map closed there: what is known holds no starts. */
    lemma StableIsClosed(dep: map<Iri, set<Iri>>, c: Iri, more: set<Iri>)
      requires Growing(dep) && c in sat && more <= dep[c]
      requires forall x :: x in more <==> KnownBelow(dep, dep[c], x) && x !in starts
      ensures ClosedAt(dep, c)
    {
      forall x | KnownBelow(dep, dep[c], x) ensures x in dep[c] { KnownIsDepends(dep, c, x); }
    }

    lemma NotAStart(c: Iri, d: Iri)
      requires Depends(c, d)
      ensures d !in starts
    {
      var first :| Wants(c, first) && Graphs.Reaches(Wanting(), first, d);
      var s := {first} + (cat.Universe() - starts);
      forall x, y | x in s && y in Graphs.Next(Wanting(), x) ensures y in s { NextIsWanted(x, y); }
      assert Graphs.ClosedUnder(Wanting(), s);
    }

    /** A closed map holds everything that is transitively consumed. */
    lemma ClosedHoldsAll(dep: map<Iri, set<Iri>>, c: Iri, d: Iri)
      requires Growing(dep) && (forall q | q in sat :: ClosedAt(dep, q)) && c in sat && Depends(c, d)
      ensures d in dep[c]
    {
      assert GrowingAt(dep[c], c);
      forall x, y | x in dep[c] && y in Graphs.Next(Wanting(), x) ensures y in dep[c] {
        NextIsWanted(x, y);
        var q :| q in sat && q in cat.Producers(x) && Wants(q, y);
        assert ClosedAt(dep, c) && GrowingAt(dep[q], q);
        assert KnownBelow(dep, dep[c], y);
      }
      assert Graphs.ClosedUnder(Wanting(), dep[c]);
    }

    ghost function Missing(dep: map<Iri, set<Iri>>): set<(Iri, Iri)>
      requires dep.Keys == sat
    {
      set c, d | c in sat && d in cat.Universe() && d !in dep[c] :: (c, d)
    }

    lemma DependsInUniverse(c: Iri, d: Iri)
      requires c in sat && sat <= cat.caps.Keys && Depends(c, d)
      ensures d in cat.Universe()
    {
      var first :| Wants(c, first) && Graphs.Reaches(Wanting(), first, d);
      cat.ConsumedInUniverse(c, first);
      assert Graphs.ClosedUnder(Wanting(), cat.Universe());
    }
  }

  /** `dep_closure`: exactly the DataStates each satisfiable capacity transitively consumes. */
  method DepClosure(g: Ground, order: seq<Iri>) returns (dep: map<Iri, set<Iri>>)
    requires g.sat == SeqSet(order) && g.sat <= g.cat.caps.Keys
    ensures dep.Keys == g.sat
    ensures forall c, d | c in g.sat :: d in dep[c] <==> g.Depends(c, d)
  {
    dep := map c | c in g.sat :: SeqSet(g.cat.Inputs(c)) - g.starts;
    forall c, d | c in g.sat && g.Wants(c, d) ensures g.Depends(c, d) { g.DependsDirectly(c, d); }
    var changed := true;
    while changed
      invariant g.Growing(dep)
      invariant !changed ==> forall c | c in g.sat :: g.ClosedAt(dep, c)
      decreases g.Missing(dep), changed
    {
      ghost var before := dep;
      dep, changed := DepPass(g, order, dep);
    }
    forall c, d | c in g.sat && g.Depends(c, d) ensures d in dep[c] {
      g.ClosedHoldsAll(dep, c, d);
    }
  }

  /** One pass over the satisfiable capacities. */
  method DepPass(g: Ground, order: seq<Iri>, dep0: map<Iri, set<Iri>>) returns (dep: map<Iri, set<Iri>>, changed: bool)
    requires g.sat == SeqSet(order) && g.sat <= g.cat.caps.Keys && g.Growing(dep0)
    ensures g.Growing(dep)
    ensures if changed then g.Missing(dep) < g.Missing(dep0) else dep == dep0 && forall c | c in g.sat :: g.ClosedAt(dep, c)
  {
    dep, changed := dep0, false;
    for k := 0 to |order|
      invariant g.Growing(dep)
      invariant if changed then g.Missing(dep) < g.Missing(dep0) else dep == dep0 && forall c | c in order[..k] :: g.ClosedAt(dep, c)
    {
      var c := order[k];
      TakeOneMore(order, k);
      var more := g.Below(dep, dep[c]) - g.starts;
      if !(more <= dep[c]) {
        g.GrowKeeps(dep, c, more);
        MissingShrinks(g, dep0, dep, c, more);
        dep, changed := dep[c := dep[c] + more], true;
      } else {
        g.StableIsClosed(dep, c, more);
      }
    }
    TakeAll(order);
  }

  lemma TakeAll(order: seq<Iri>)
    ensures order[..|order|] == order
  {}

  lemma MissingShrinks(g: Ground, before: map<Iri, set<Iri>>, dep: map<Iri, set<Iri>>, c: Iri, more: set<Iri>)
    requires g.sat <= g.cat.caps.Keys && before.Keys == dep.Keys == g.sat && c in g.sat && !(more <= dep[c])
    requires g.Growing(dep[c := dep[c] + more]) && (dep == before || g.Missing(dep) < g.Missing(before))
    ensures g.Missing(dep[c := dep[c] + more]) < g.Missing(before)
  {
    var x :| x in more && x !in dep[c];
    GrownInUniverse(g, dep[c := dep[c] + more], c, x);
    MissingOneLess(g, dep, c, dep[c] + more, x);
    if dep != before { Transitive(g.Missing(dep[c := dep[c] + more]), g.Missing(dep), g.Missing(before)); }
  }

  lemma Transitive<T>(a: set<T>, b: set<T>, c: set<T>)
    requires a < b && b < c
    ensures a < c
  {}

  lemma GrownInUniverse(g: Ground, dep: map<Iri, set<Iri>>, c: Iri, x: Iri)
    requires g.sat <= g.cat.caps.Keys && g.Growing(dep) && c in g.sat && x in dep[c]
    ensures x in g.cat.Universe()
  {
    assert g.GrowingAt(dep[c], c);
    g.DependsInUniverse(c, x);
  }

  lemma MissingOneLess(g: Ground, dep: map<Iri, set<Iri>>, c: Iri, grew: set<Iri>, x: Iri)
    requires dep.Keys == g.sat && c in g.sat && dep[c] <= grew && x in grew && x !in dep[c] && x in g.cat.Universe()
    ensures g.Missing(dep[c := grew]) < g.Missing(dep)
  {
    assert (c, x) in g.Missing(dep) && (c, x) !in g.Missing(dep[c := grew]);
  }

  // ---- construction ----

  datatype Emission = Emitted(index: nat) | NotFound(capacity: Iri, datastate: Iri) | SelfFeed(capacity: Iri)

  /** What construction reads: the satisfiable part and the dependency closure over it. */
  datatype Plan = Plan(g: Ground, dep: map<Iri, set<Iri>>)
  {
    ghost predicate Exact() {
      && g.sat <= g.cat.caps.Keys && dep.Keys == g.sat
      && forall c, d | c in g.sat :: d in dep[c] <==> g.Depends(c, d)
    }

    /** The admissibility rule: `p` may feed `c` if building `p` can never need an output of `c`. */
    predicate Admits(p: Iri, c: Iri) {
      p in dep && p != c && forall o | o in g.cat.Outputs(c) :: o !in dep[p]
    }

    function AdmittedOf(ps: seq<Iri>, c: Iri): (r: seq<Iri>)
      ensures forall p :: p in r <==> p in ps && Admits(p, c)
    {
      if ps == [] then [] else (if Admits(ps[0], c) then [ps[0]] else []) + AdmittedOf(ps[1..], c)
    }

    function Admissible(d: Iri, c: Iri): seq<Iri> { AdmittedOf(g.Producers(d), c) }

    /** A fold is fed by every admissible producer, the other groups by the first. */
    function Picks(c: Iri, d: Iri): (r: seq<Iri>)
      ensures forall p | p in r :: p in Admissible(d, c)
      ensures r == [] <==> Admissible(d, c) == []
    {
      var sat := Admissible(d, c);
      if g.cat.GroupOf(c) == Fold || sat == [] then sat else [sat[0]]
    }

    /** What feeds an input: of the satisfiable producers whose building can never need an output of the consumer, all if it
        is a fold, otherwise the one that is first by IRI. */
    lemma PicksExactly(c: Iri, d: Iri, p: Iri)
      ensures p in Picks(c, d) <==> MayFeed(c, d, p) && (g.cat.GroupOf(c) == Fold || forall q | MayFeed(c, d, q) :: Leq(p, q))
    {
      var sat := Admissible(d, c);
      AdmittedSorted(g.Producers(d), c);
      if g.cat.GroupOf(c) != Fold && sat != [] {
        assert sat[0] in sat;
        forall q | q in sat ensures Leq(sat[0], q) {
          var k :| 0 <= k < |sat| && sat[k] == q;
          TextLeqTotal(sat[0].text, sat[0].text);
        }
        if MayFeed(c, d, p) && forall q | MayFeed(c, d, q) :: Leq(p, q) {
          assert MayFeed(c, d, sat[0]);
          TextLeqOneWay(p.text, sat[0].text);
        }
      }
    }

    predicate MayFeed(c: Iri, d: Iri, p: Iri) {
      && p in g.cat.Producers(d) && p in g.sat && p in dep && p != c
      && forall o | o in g.cat.Outputs(c) :: o !in dep[p]
    }

    lemma {:induction false} AdmittedSorted(ps: seq<Iri>, c: Iri)
      requires Sorted(ps)
      ensures Sorted(AdmittedOf(ps, c))
    {
      if ps != [] {
        AdmittedSorted(ps[1..], c);
        FirstThenSorted(ps, AdmittedOf(ps[1..], c));
      }
    }

    lemma FirstThenSorted(ps: seq<Iri>, rest: seq<Iri>)
      requires ps != [] && Sorted(ps) && Sorted(rest) && forall q | q in rest :: q in ps[1..]
      ensures Sorted([ps[0]] + rest)
    {
      forall j | 0 <= j < |rest| ensures Leq(ps[0], rest[j]) {
        assert rest[j] in rest;
        var k :| 0 <= k < |ps[1..]| && ps[1..][k] == rest[j];
        assert ps[k + 1] == rest[j];
      }
    }

    ghost predicate PickClosed(s: set<Iri>) {
      forall q, d, p :: q in s && g.Wants(q, d) && p in Picks(q, d) ==> p in s
    }

    /** The least set with `first` in it and everything picked for what is in it: what any construction from `first` is made of. */
    ghost predicate Needed(first: Iri, c: Iri) {
      forall s: set<Iri> :: first in s && PickClosed(s) ==> c in s
    }

    /** Every needed capacity that must have all of its inputs can be fed each of them. */
    ghost predicate NoneStuck(first: Iri) {
      forall c, d :: Needed(first, c) && g.Wants(c, d) && g.cat.GroupOf(c) != AnyOf ==> Admissible(d, c) != []
    }

    lemma NeededThrough(c: Iri, d: Iri, p: Iri, x: Iri)
      requires g.Wants(c, d) && p in Picks(c, d) && Needed(p, x)
      ensures Needed(c, x)
    {}

    /** A finished construction holds all that is needed, each with what it picks. */
    lemma FinishedIsNotStuck(steps: seq<Iri>, idx: map<Iri, nat>, first: Iri)
      requires InOrder(steps, idx) && first in idx
      ensures NoneStuck(first) && forall c | Needed(first, c) :: c in idx
    {
      forall q, d, p | q in idx.Keys && g.Wants(q, d) && p in Picks(q, d) ensures p in idx.Keys { StepIsFed(steps, idx, q, d); }
      assert PickClosed(idx.Keys);
      forall c, d | Needed(first, c) && g.Wants(c, d) && g.cat.GroupOf(c) != AnyOf ensures Admissible(d, c) != [] {
        StepIsFed(steps, idx, c, d);
      }
    }

    lemma StepsAreIndexed(steps: seq<Iri>, idx: map<Iri, nat>)
      requires InOrder(steps, idx)
      ensures forall c :: c in steps <==> c in idx
    {
      forall c | c in idx ensures c in steps { assert steps[idx[c]] == c; }
    }

    lemma StepIsFed(steps: seq<Iri>, idx: map<Iri, nat>, c: Iri, d: Iri)
      requires InOrder(steps, idx) && c in idx && g.Wants(c, d)
      ensures FedBefore(idx, c, d, idx[c])
    {
      assert StepFed(idx, steps[idx[c]], idx[c]);
    }

    /** Each step's picks come before it, and only an `any_of` may have nothing to pick. */
    ghost predicate FedBefore(idx: map<Iri, nat>, c: Iri, d: Iri, i: nat) {
      && (Picks(c, d) == [] ==> g.cat.GroupOf(c) == AnyOf)
      && forall p | p in Picks(c, d) :: p in idx && idx[p] < i
    }

    ghost predicate StepFed(idx: map<Iri, nat>, c: Iri, i: nat) {
      forall d | g.Wants(c, d) :: FedBefore(idx, c, d, i)
    }

    ghost predicate InOrder(steps: seq<Iri>, idx: map<Iri, nat>) {
      && (forall c | c in idx :: idx[c] < |steps| && steps[idx[c]] == c)
      && (forall i | 0 <= i < |steps| :: steps[i] in g.sat && steps[i] in idx && idx[steps[i]] == i)
      && (forall i | 0 <= i < |steps| :: StepFed(idx, steps[i], i))
    }

    /** Steps are only ever added, at the end. */
    ghost predicate Grew(steps: seq<Iri>, idx: map<Iri, nat>, steps': seq<Iri>, idx': map<Iri, nat>) {
      steps <= steps' && idx.Keys <= idx'.Keys && forall c | c in idx :: idx'[c] == idx[c]
    }

    lemma FedStays(steps: seq<Iri>, idx: map<Iri, nat>, steps': seq<Iri>, idx': map<Iri, nat>, c: Iri, d: Iri)
      requires Grew(steps, idx, steps', idx') && FedBefore(idx, c, d, |steps|)
      ensures FedBefore(idx', c, d, |steps'|)
    {}

    lemma AppendKeeps(steps: seq<Iri>, idx: map<Iri, nat>, c: Iri)
      requires InOrder(steps, idx) && c in g.sat && c !in idx && StepFed(idx, c, |steps|)
      ensures InOrder(steps + [c], idx[c := |steps|]) && Grew(steps, idx, steps + [c], idx[c := |steps|])
    {
      var steps', idx' := steps + [c], idx[c := |steps|];
      forall i | 0 <= i < |steps'| ensures StepFed(idx', steps'[i], i) {
        var q := steps'[i];
        assert i < |steps| ==> StepFed(idx, steps[i], i);
        forall d | g.Wants(q, d) ensures FedBefore(idx', q, d, i) {
          assert FedBefore(idx, q, d, i);
        }
      }
    }

    /** `b`, under construction, is no part of what building `c` can need. */
    ghost predicate Clear(b: Iri, c: Iri) {
      c in dep && b != c && forall o | o in g.cat.Outputs(b) :: o !in dep[c]
    }

    ghost predicate AllClear(building: set<Iri>, c: Iri) {
      forall b | b in building :: Clear(b, c)
    }

    /** What an admissible producer needs is again clear of everything under construction. */
    lemma ClearBelow(building: set<Iri>, c: Iri, d: Iri, p: Iri)
      requires Exact() && c in g.sat && g.Wants(c, d) && p in Admissible(d, c) && AllClear(building, c)
      ensures p in g.sat && AllClear(building + {c}, p)
    {
      g.DependsDirectly(c, d);
      assert p in g.cat.Producers(d) && d in g.cat.Outputs(p);
      forall b | b in building ensures Clear(b, p) {
        assert Clear(b, c) && d in dep[c];
        forall o | o in g.cat.Outputs(b) ensures o !in dep[p] {
          if g.Depends(p, o) { g.DependsThrough(c, d, p, o); }
        }
      }
    }

    ghost predicate FedSoFar(idx: map<Iri, nat>, c: Iri, ds: seq<Iri>, i: nat) {
      forall d | d in ds && g.Wants(c, d) :: FedBefore(idx, c, d, i)
    }

    lemma FedSoFarStays(steps: seq<Iri>, idx: map<Iri, nat>, steps': seq<Iri>, idx': map<Iri, nat>, c: Iri, ds: seq<Iri>, d: Iri)
      requires Grew(steps, idx, steps', idx') && FedSoFar(idx, c, ds, |steps|)
      requires g.Wants(c, d) ==> FedBefore(idx', c, d, |steps'|)
      ensures FedSoFar(idx', c, ds + [d], |steps'|)
    {
      forall x | x in ds && g.Wants(c, x) ensures FedBefore(idx', c, x, |steps'|) {
        FedStays(steps, idx, steps', idx', c, x);
      }
    }

    lemma FedWhenAll(steps: seq<Iri>, idx: map<Iri, nat>, c: Iri, d: Iri)
      requires InOrder(steps, idx) && SeqSet(Picks(c, d)) <= idx.Keys
      requires Picks(c, d) == [] ==> g.cat.GroupOf(c) == AnyOf
      ensures FedBefore(idx, c, d, |steps|)
    {
      assert forall p | p in Picks(c, d) :: p in SeqSet(Picks(c, d));
    }

    lemma GrewOn(steps: seq<Iri>, idx: map<Iri, nat>, steps': seq<Iri>, idx': map<Iri, nat>, steps'': seq<Iri>, idx'': map<Iri, nat>)
      requires Grew(steps, idx, steps', idx') && Grew(steps', idx', steps'', idx'')
      ensures Grew(steps, idx, steps'', idx'')
    {}

    /** Everything added is needed for `c`. */
    ghost predicate OnlyNeeded(c: Iri, idx: map<Iri, nat>, idx': map<Iri, nat>) { forall x | x in idx' && x !in idx :: Needed(c, x) }

    lemma OnlyNeededThrough(c: Iri, d: Iri, p: Iri, idx: map<Iri, nat>, idx': map<Iri, nat>)
      requires g.Wants(c, d) && p in Picks(c, d) && OnlyNeeded(p, idx, idx')
      ensures OnlyNeeded(c, idx, idx')
    {
      forall x | x in idx' && x !in idx ensures Needed(c, x) { NeededThrough(c, d, p, x); }
    }

    lemma OnlyNeededOn(c: Iri, idx: map<Iri, nat>, idx': map<Iri, nat>, idx'': map<Iri, nat>)
      requires OnlyNeeded(c, idx, idx') && OnlyNeeded(c, idx', idx'')
      ensures OnlyNeeded(c, idx, idx'')
    {}

    lemma OnlyNeededSelf(c: Iri, idx: map<Iri, nat>, idx': map<Iri, nat>, i: nat)
      requires OnlyNeeded(c, idx, idx')
      ensures OnlyNeeded(c, idx, idx'[c := i])
    {}

    /** One more of some picks is among the steps. */
    lemma OnePickMore(picks: seq<Iri>, m: nat, idx: map<Iri, nat>, idx': map<Iri, nat>)
      requires m < |picks| && SeqSet(picks[..m]) <= idx.Keys <= idx'.Keys && picks[m] in idx'
      ensures SeqSet(picks[..m + 1]) <= idx'.Keys
    {
      TakeOneMore(picks, m);
    }

    /** An honest dead end: a required input that no admissible producer can supply. */
    ghost predicate Stuck(r: Emission) {
      && r.NotFound? && r.capacity in g.sat && g.Wants(r.capacity, r.datastate)
      && g.cat.GroupOf(r.capacity) != AnyOf && Admissible(r.datastate, r.capacity) == []
    }
  }

  class Construction {
    const plan: Plan
    var steps: seq<Iri>
    var idx: map<Iri, nat>
    var building: set<Iri>

    constructor (plan: Plan)
      ensures this.plan == plan && steps == [] && idx == map[] && building == {}
    {
      this.plan := plan;
      steps, idx, building := [], map[], {};
    }

    ghost predicate Valid()
      reads this
    {
      plan.Exact() && plan.InOrder(steps, idx) && idx.Keys !! building
    }

    /** Everything below has returned: what was under construction still is, and the steps have only grown. */
    ghost predicate Since(steps0: seq<Iri>, idx0: map<Iri, nat>, building0: set<Iri>)
      reads this
    {
      Valid() && building == building0 && plan.Grew(steps0, idx0, steps, idx)
    }

    /** `emit`: for any catalog, target and starts, a capacity is never re-entered while under construction. */
    method Emit(c: Iri) returns (r: Emission)
      requires Valid() && c in plan.g.sat && plan.AllClear(building, c)
      modifies this
      ensures !r.Emitted? ==> plan.Stuck(r) && plan.Needed(c, r.capacity)
      ensures r.Emitted? ==> Since(old(steps), old(idx), old(building)) && c in idx && r.index == idx[c]
      ensures r.Emitted? ==> plan.OnlyNeeded(c, old(idx), idx)
      ensures r.Emitted? && c !in old(idx) ==> r.index == |steps| - 1
      decreases plan.g.sat - building, 1
    {
      if c in idx { return Emitted(idx[c]); }
      if c in building { return SelfFeed(c); }
      building := building + {c};
      r := EmitInputs(c, old(building));
      if !r.Emitted? { return; }
      plan.AppendKeeps(steps, idx, c);
      plan.OnlyNeededSelf(c, old(idx), idx, |steps|);
      building := building - {c};
      steps, idx := steps + [c], idx[c := |steps|];
      r := Emitted(|steps| - 1);
    }

    /** The loop over the declared inputs. */
    method EmitInputs(c: Iri, ghost above: set<Iri>) returns (r: Emission)
      requires Valid() && c in plan.g.sat && building == above + {c} && plan.AllClear(above, c)
      modifies this
      ensures !r.Emitted? ==> plan.Stuck(r) && plan.Needed(c, r.capacity)
      ensures r.Emitted? ==> Since(old(steps), old(idx), old(building)) && plan.StepFed(idx, c, |steps|)
      ensures r.Emitted? ==> plan.OnlyNeeded(c, old(idx), idx)
      decreases plan.g.sat - building, 3
    {
      var ins := plan.g.cat.Inputs(c);
      for k := 0 to |ins|
        invariant Since(old(steps), old(idx), old(building)) && plan.FedSoFar(idx, c, ins[..k], |steps|)
        invariant plan.OnlyNeeded(c, old(idx), idx)
      {
        ghost var steps0, idx0 := steps, idx;
        TakeOneMore(ins, k);
        if ins[k] !in plan.g.starts {
          r := EmitInput(c, ins[k], above);
          if !r.Emitted? { return; }
          plan.GrewOn(old(steps), old(idx), steps0, idx0, steps, idx);
          plan.OnlyNeededOn(c, old(idx), idx0, idx);
        }
        plan.FedSoFarStays(steps0, idx0, steps, idx, c, ins[..k], ins[k]);
      }
      TakeAll(ins);
      r := Emitted(0);
    }

    /** One declared input: everything picked for `d` is emitted. */
    method EmitInput(c: Iri, d: Iri, ghost above: set<Iri>) returns (r: Emission)
      requires Valid() && c in plan.g.sat && plan.g.Wants(c, d)
      requires building == above + {c} && plan.AllClear(above, c)
      modifies this
      ensures !r.Emitted? ==> plan.Stuck(r) && plan.Needed(c, r.capacity)
      ensures r.Emitted? ==> Since(old(steps), old(idx), old(building)) && plan.FedBefore(idx, c, d, |steps|)
      ensures r.Emitted? ==> plan.OnlyNeeded(c, old(idx), idx)
      decreases plan.g.sat - building, 2
    {
      var picks := plan.Picks(c, d);
      if picks == [] && plan.g.cat.GroupOf(c) != AnyOf { return NotFound(c, d); }
      for m := 0 to |picks|
        invariant Since(old(steps), old(idx), old(building)) && SeqSet(picks[..m]) <= idx.Keys
        invariant plan.OnlyNeeded(c, old(idx), idx)
      {
        plan.ClearBelow(above, c, d, picks[m]);
        ghost var steps0, idx0 := steps, idx;
        r := Emit(picks[m]);
        if !r.Emitted? {
          plan.NeededThrough(c, d, picks[m], r.capacity);
          return;
        }
        plan.GrewOn(old(steps), old(idx), steps0, idx0, steps, idx);
        plan.OnlyNeededThrough(c, d, picks[m], idx0, idx);
        plan.OnlyNeededOn(c, old(idx), idx0, idx);
        plan.OnePickMore(picks, m, idx0, idx);
      }
      TakeAll(picks);
      plan.FedWhenAll(steps, idx, c, d);
      r := Emitted(0);
    }
  }

  // ---- find ----

  datatype Answer = Found(steps: seq<Iri>) | Unreachable | DeadEnd(capacity: Iri, datastate: Iri)

  ghost function DerivableSet(cat: Catalog, starts: set<Iri>): (r: set<Iri>)
    ensures forall d :: d in r <==> Derivable(cat, starts, d)
  {
    var r := set d | d in starts + cat.Universe() && Derivable(cat, starts, d);
    DerivableIsKnown(cat, starts);
    r
  }

  lemma DerivableIsKnown(cat: Catalog, starts: set<Iri>)
    ensures forall d | Derivable(cat, starts, d) :: d in starts + cat.Universe()
  {
    var all := starts + cat.Universe();
    forall c, o | Satisfied(cat, c, all) && o in cat.Outputs(c) ensures o in all {
      assert c in cat.Producers(o);
      cat.ProducedInUniverse(c, o);
    }
    assert Closed(cat, starts, {}, all);
  }

  /** The satisfiable part of the catalog, and what each of its capacities transitively consumes. */
  ghost function PlanOf(cat: Catalog, starts: set<Iri>): Plan {
    var g := Ground(cat, starts, set c | c in cat.caps && Satisfied(cat, c, DerivableSet(cat, starts)));
    Plan(g, map c | c in g.sat :: set d | d in cat.Universe() && g.Depends(c, d))
  }

  lemma PlanIsExact(cat: Catalog, starts: set<Iri>)
    ensures PlanOf(cat, starts).Exact()
  {
    var plan := PlanOf(cat, starts);
    forall c, d | c in plan.g.sat && plan.g.Depends(c, d) ensures d in plan.dep[c] {
      plan.g.DependsInUniverse(c, d);
    }
  }

  /** Steps that are distinct and in order: everything picked for a step comes before it. */
  ghost predicate Constructed(plan: Plan, steps: seq<Iri>) {
    exists idx :: plan.InOrder(steps, idx)
  }

  predicate EndsWith(cat: Catalog, starts: set<Iri>, steps: seq<Iri>, target: Iri) {
    if target in starts then steps == [] else steps != [] && target in cat.Outputs(steps[|steps| - 1])
  }

  function InSat(order: seq<Iri>, cap: map<Iri, nat>): (r: seq<Iri>)
    ensures forall c :: c in r <==> c in order && c in cap
  {
    if order == [] then [] else (if order[0] in cap then [order[0]] else []) + InSat(order[1..], cap)
  }

  /** The strata, the satisfiable capacities and their dependency closure, which every construction goes by. */
  method Prepare(cat: Catalog, order: seq<Iri>, starts: set<Iri>) returns (ds: map<Iri, nat>, plan: Plan)
    requires Listed(cat, order)
    ensures plan == PlanOf(cat, starts) && plan.Exact()
    ensures forall d :: d in ds <==> Derivable(cat, starts, d)
    ensures forall d | d in ds && d !in starts :: plan.g.Producers(d) != []
  {
    var cap: map<Iri, nat>;
    ds, cap := Stratify(cat, order, starts);
    var sat := InSat(order, cap);
    var g := Ground(cat, starts, SeqSet(sat));
    assert ds.Keys == DerivableSet(cat, starts);
    assert g == PlanOf(cat, starts).g;
    var dep := DepClosure(g, sat);
    PlanIsExact(cat, starts);
    plan := Plan(g, dep);
    ExactIsUnique(plan, PlanOf(cat, starts));
    forall d | d in ds && d !in starts ensures plan.g.Producers(d) != [] { SomeSatisfiableProducer(cat, starts, ds, cap, d); }
  }

  /** The construction from one capacity: all its steps, it last, or what it got stuck on. */
  method Build(plan: Plan, first: Iri) returns (e: Emission, steps: seq<Iri>)
    requires plan.Exact() && first in plan.g.sat
    ensures e.Emitted? ==> Constructed(plan, steps) && steps != [] && steps[|steps| - 1] == first
    ensures e.Emitted? ==> forall c :: c in steps <==> plan.Needed(first, c)
    ensures !e.Emitted? ==> plan.Stuck(e) && plan.Needed(first, e.capacity)
    ensures e.Emitted? <==> plan.NoneStuck(first)
  {
    var walk := new Construction(plan);
    e := walk.Emit(first);
    steps := walk.steps;
    if e.Emitted? {
      plan.FinishedIsNotStuck(steps, walk.idx, first);
      plan.StepsAreIndexed(steps, walk.idx);
    }
  }

  /** The target is a start, or nothing is stuck among what its first satisfiable producer needs. */
  ghost predicate Constructible(cat: Catalog, starts: set<Iri>, target: Iri) {
    var plan := PlanOf(cat, starts);
    target in starts || (plan.g.Producers(target) != [] && plan.NoneStuck(plan.g.Producers(target)[0]))
  }

  /** Of the producers that what is derivable satisfies, the first by IRI. */
  ghost predicate FirstProducer(cat: Catalog, starts: set<Iri>, target: Iri, p: Iri) {
    && p in cat.Producers(target) && Satisfied(cat, p, DerivableSet(cat, starts))
    && forall q | q in cat.Producers(target) && Satisfied(cat, q, DerivableSet(cat, starts)) :: Leq(p, q)
  }

  lemma FirstIsFirst(cat: Catalog, starts: set<Iri>, target: Iri)
    requires PlanOf(cat, starts).g.Producers(target) != []
    ensures FirstProducer(cat, starts, target, PlanOf(cat, starts).g.Producers(target)[0])
  {
    var ps := PlanOf(cat, starts).g.Producers(target);
    assert ps[0] in ps;
    forall q | q in cat.Producers(target) && Satisfied(cat, q, DerivableSet(cat, starts)) ensures Leq(ps[0], q) {
      assert q in ps;
      var k :| 0 <= k < |ps| && ps[k] == q;
      TextLeqTotal(q.text, q.text);
    }
  }

  lemma UnderivableHasNoProducer(cat: Catalog, starts: set<Iri>, target: Iri)
    requires !Derivable(cat, starts, target)
    ensures PlanOf(cat, starts).g.Producers(target) == []
  {
    var ps := PlanOf(cat, starts).g.Producers(target);
    if ps != [] {
      assert ps[0] in ps;
      SatisfiedByDerivable(cat, starts, ps[0], target);
    }
  }

  /** `find_fixpoint` with the rule `fp_dep`. */
  method Find(cat: Catalog, order: seq<Iri>, starts: set<Iri>, target: Iri) returns (r: Answer)
    requires Listed(cat, order)
    ensures r.Unreachable? <==> !Derivable(cat, starts, target)
    ensures r.Found? ==> Constructed(PlanOf(cat, starts), r.steps) && EndsWith(cat, starts, r.steps, target)
    ensures r.Found? && target !in starts ==> FirstProducer(cat, starts, target, r.steps[|r.steps| - 1])
    ensures r.Found? && target !in starts ==> forall c :: c in r.steps <==> PlanOf(cat, starts).Needed(r.steps[|r.steps| - 1], c)
    ensures r.DeadEnd? ==> PlanOf(cat, starts).Stuck(NotFound(r.capacity, r.datastate))
    ensures r.Found? <==> Constructible(cat, starts, target)
    ensures Acyclic(cat) ==> (r.Found? <==> Derivable(cat, starts, target))
  {
    var ds, plan := Prepare(cat, order, starts);
    if target in starts {
      assert plan.InOrder([], map[]);
      return Found([]);
    }
    if target !in ds {
      UnderivableHasNoProducer(cat, starts, target);
      return Unreachable;
    }
    var tp := plan.g.Producers(target);
    assert tp[0] in tp;
    FirstIsFirst(cat, starts, target);
    var e, steps := Build(plan, tp[0]);
    if e.Emitted? {
      r := Found(steps);
    } else {
      if Acyclic(cat) { AcyclicNeverStuck(cat, starts, e); }
      r := DeadEnd(e.capacity, e.datastate);
    }
  }

  lemma ExactIsUnique(a: Plan, b: Plan)
    requires a.Exact() && b.Exact() && a.g == b.g
    ensures a == b
  {
    forall c | c in a.dep ensures a.dep[c] == b.dep[c] {
      assert forall d :: d in a.dep[c] <==> d in b.dep[c];
    }
    assert a.dep == b.dep;
  }

  lemma SomeSatisfiableProducer(cat: Catalog, starts: set<Iri>, ds: map<Iri, nat>, cap: map<Iri, nat>, d: Iri)
    requires Sound(cat, starts, ds, cap) && d in ds && d !in starts
    ensures exists c :: c in cap && c in cat.Producers(d)
  {
    assert ReachedFrom(cat, ds, cap, d);
    var c :| c in cap && d in cat.Outputs(c) && ds[d] == cap[c] + 1;
    assert c in cat.Producers(d);
  }

  // ---- acyclic catalogs ----

  /** A DataState that is wanted for another leads to it. */
  lemma WantedReaches(g: Ground, x: Iri, o: Iri)
    requires (forall q | q in g.sat :: !g.cat.Refused(q)) && Graphs.Reaches(g.Wanting(), x, o)
    ensures Reaches(g.cat, o, x)
  {
    var s := Leading(g.cat, x);
    forall y | y in s ensures Graphs.Next(g.Wanting(), y) <= s {
      forall z | z in Graphs.Next(g.Wanting(), y) ensures z in s { WantedStep(g, y, z, x); }
    }
    assert o in s;
  }

  /** All that leads to `x`, and `x`. */
  ghost function Leading(cat: Catalog, x: Iri): (r: set<Iri>)
    ensures x in r && forall y | y in r :: Reaches(cat, y, x)
    ensures forall y | y in cat.Universe() && Reaches(cat, y, x) :: y in r
  {
    ReachesItself(cat, x);
    {x} + set y | y in cat.Universe() && Reaches(cat, y, x)
  }

  lemma WantedStep(g: Ground, y: Iri, z: Iri, x: Iri)
    requires (forall q | q in g.sat :: !g.cat.Refused(q)) && Reaches(g.cat, y, x) && z in Graphs.Next(g.Wanting(), y)
    ensures z in g.cat.Universe() && Reaches(g.cat, z, x)
  {
    g.NextIsWanted(y, z);
    var q :| q in g.sat && q in g.cat.Producers(y) && g.Wants(q, z);
    ReachesThrough(g.cat, q, z, y, x);
  }

  /** What a capacity transitively consumes leads to what it produces. */
  lemma DependsReaches(g: Ground, p: Iri, o: Iri, d: Iri)
    requires g.sat <= g.cat.caps.Keys && (forall q | q in g.sat :: !g.cat.Refused(q))
    requires p in g.sat && d in g.cat.Outputs(p) && g.Depends(p, o)
    ensures Reaches(g.cat, o, d)
  {
    var x :| g.Wants(p, x) && Graphs.Reaches(g.Wanting(), x, o);
    WantedReaches(g, x, o);
    ReachesItself(g.cat, d);
    ReachesThrough(g.cat, p, x, d, d);
    ReachesTransitive(g.cat, o, x, d);
  }

  /** Without cycles the rule refuses no producer: it admits exactly the satisfiable ones. */
  lemma AcyclicAdmitsAll(cat: Catalog, starts: set<Iri>, c: Iri, d: Iri, p: Iri)
    requires Acyclic(cat) && c in PlanOf(cat, starts).g.sat && PlanOf(cat, starts).g.Wants(c, d)
    ensures p in PlanOf(cat, starts).Admissible(d, c) <==> p in cat.Producers(d) && p in PlanOf(cat, starts).g.sat
  {
    var plan := PlanOf(cat, starts);
    PlanIsExact(cat, starts);
    if p in cat.Producers(d) && p in plan.g.sat {
      assert d in cat.Outputs(p);
      if p == c { ReachesItself(cat, d); }
      forall o | o in cat.Outputs(c) ensures o !in plan.dep[p] {
        if plan.g.Depends(p, o) {
          DependsReaches(plan.g, p, o, d);
        }
      }
    }
  }

  lemma AcyclicNeverStuck(cat: Catalog, starts: set<Iri>, r: Emission)
    requires Acyclic(cat)
    ensures !PlanOf(cat, starts).Stuck(r)
  {
    var plan := PlanOf(cat, starts);
    if plan.Stuck(r) {
      var c, d := r.capacity, r.datastate;
      assert d in DerivableSet(cat, starts);
      var p := ProducerInSat(cat, starts, d);
      AcyclicAdmitsAll(cat, starts, c, d, p);
    }
  }

  /** A derivable DataState that is no start has a producer that the derivable DataStates satisfy. */
  lemma ProducerInSat(cat: Catalog, starts: set<Iri>, d: Iri) returns (p: Iri)
    requires Derivable(cat, starts, d) && d !in starts
    ensures p in cat.Producers(d) && p in PlanOf(cat, starts).g.sat
  {
    var all := DerivableSet(cat, starts);
    if forall c | c in cat.Producers(d) :: !Satisfied(cat, c, all) {
      var rest := all - {d};
      forall c, o | Satisfied(cat, c, rest) && o in cat.Outputs(c) ensures o in rest {
        SatisfiedMonotone(cat, c, rest, all);
        SatisfiedByDerivable(cat, starts, c, o);
      }
      assert Closed(cat, starts, {}, rest);
    }
    p :| p in cat.Producers(d) && Satisfied(cat, p, all);
  }

  lemma SatisfiedByDerivable(cat: Catalog, starts: set<Iri>, c: Iri, o: Iri)
    requires Satisfied(cat, c, DerivableSet(cat, starts)) && o in cat.Outputs(c)
    ensures Derivable(cat, starts, o) && c in cat.Producers(o)
  {
    forall s: set<Iri> | Closed(cat, starts, {}, s) ensures o in s {
      assert DerivableSet(cat, starts) <= s;
      SatisfiedMonotone(cat, c, DerivableSet(cat, starts), s);
    }
  }
}
