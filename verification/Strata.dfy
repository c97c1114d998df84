/** The bottom-up form of reachability: strata, and which DataStates a capacity transitively consumes. */
module Strata {
  import opened Identifiers
  import opened Catalogs
  import opened Pipelines

  /** The catalogs of the fixpoint model: every capacity listed once in dict order, none refused. */
  ghost predicate Listed(cat: Catalog, order: seq<Iri>) {
    && (forall c :: c in order <==> c in cat.caps)
    && (forall c | c in cat.caps :: !cat.Refused(c))
  }

  // ---- strata ----

  function MinOf(ds: seq<Iri>, rank: map<Iri, nat>): (r: Option<nat>)
    ensures r.None? <==> forall d | d in ds :: d !in rank
    ensures r.Some? ==> exists d :: d in ds && d in rank && rank[d] == r.value
    ensures r.Some? ==> forall d | d in ds && d in rank :: r.value <= rank[d]
  {
    if ds == [] then None
    else
      assert ds == [ds[0]] + ds[1..];
      var rest := MinOf(ds[1..], rank);
      if ds[0] in rank && (rest.None? || rank[ds[0]] < rest.value) then Some(rank[ds[0]]) else rest
  }

  function MaxOf(ds: seq<Iri>, rank: map<Iri, nat>): (r: nat)
    requires forall d | d in ds :: d in rank
    ensures forall d | d in ds :: rank[d] <= r
    ensures ds != [] ==> exists d :: d in ds && rank[d] == r
  {
    if ds == [] then 0
    else
      var rest := MaxOf(ds[1..], rank);
      assert ds == [ds[0]] + ds[1..];
      if rank[ds[0]] > rest then rank[ds[0]] else rest
  }

  /** The stratum `c` would get now, if its inputs are there. */
  function StratumOf(cat: Catalog, c: Iri, ds: map<Iri, nat>): Option<nat> {
    var ins := cat.Inputs(c);
    if ins == [] then Some(1)
    else if cat.GroupOf(c) == AnyOf then
      match MinOf(ins, ds) case None => None case Some(m) => Some(m + 1)
    else if exists d :: d in ins && d !in ds then None
    else Some(1 + MaxOf(ins, ds))
  }

  lemma StratumIffSatisfied(cat: Catalog, c: Iri, ds: map<Iri, nat>)
    requires c in cat.caps && !cat.Refused(c)
    ensures StratumOf(cat, c, ds).Some? <==> Satisfied(cat, c, ds.Keys)
    ensures StratumOf(cat, c, ds).Some? ==> Above(cat, c, ds, StratumOf(cat, c, ds).value)
  {}

  /** It is the first stratum, or the least one above what satisfies the capacity. */
  lemma StratumIsLeast(cat: Catalog, c: Iri, ds: map<Iri, nat>)
    requires StratumOf(cat, c, ds).Some?
    ensures StratumOf(cat, c, ds).value >= 1
    ensures forall s | 1 <= s < StratumOf(cat, c, ds).value :: !Above(cat, c, ds, s)
  {
    var ins := cat.Inputs(c);
    if ins != [] && cat.GroupOf(c) != AnyOf {
      var d :| d in ins && ds[d] == MaxOf(ins, ds);
    }
  }

  /** Every output is lowered to `s + 1`, or left lower. */
  ghost predicate Lowered(ds: map<Iri, nat>, outs: seq<Iri>, s: nat, ds': map<Iri, nat>) {
    && ds'.Keys == ds.Keys + SeqSet(outs)
    && (forall d | d in ds && d !in outs :: ds'[d] == ds[d])
    && (forall d | d in outs :: ds'[d] == if d in ds && ds[d] <= s + 1 then ds[d] else s + 1)
  }

  /** The inner loop over a capacity's outputs. */
  method LowerOutputs(outs: seq<Iri>, s: nat, ds0: map<Iri, nat>) returns (ds: map<Iri, nat>)
    ensures Lowered(ds0, outs, s, ds)
  {
    ds := ds0;
    for k := 0 to |outs|
      invariant Lowered(ds0, outs[..k], s, ds)
    {
      var o := outs[k];
      assert outs[..k + 1] == outs[..k] + [o];
      if o !in ds || ds[o] > s + 1 { ds := ds[o := s + 1]; }
    }
    assert outs[..|outs|] == outs;
  }

  // What every moment of the loop keeps.

  ghost predicate OnlyDerivable(cat: Catalog, starts: set<Iri>, ds: map<Iri, nat>) {
    && (forall d | d in starts :: d in ds && ds[d] == 0)
    && (forall d | d in ds :: Derivable(cat, starts, d))
  }

  /** A capacity is in when satisfied, and stands above what satisfies it. */
  ghost predicate CapacitiesFit(cat: Catalog, ds: map<Iri, nat>, cap: map<Iri, nat>) {
    forall c | c in cap :: Satisfied(cat, c, ds.Keys) && Above(cat, c, ds, cap[c])
  }

  ghost predicate Above(cat: Catalog, c: Iri, ds: map<Iri, nat>, s: nat) {
    if cat.GroupOf(c) == AnyOf && cat.Inputs(c) != [] then exists d :: d in cat.Inputs(c) && d in ds && ds[d] < s
    else forall d | d in cat.Inputs(c) :: d in ds && ds[d] < s
  }

  /** A DataState's stratum is the least one above its producers'. */
  ghost predicate LeastAboveProducers(cat: Catalog, starts: set<Iri>, ds: map<Iri, nat>, cap: map<Iri, nat>) {
    && (forall c, o | c in cap && o in cat.Outputs(c) :: o in ds && ds[o] <= cap[c] + 1)
    && (forall d | d in ds && d !in starts :: ReachedFrom(cat, ds, cap, d))
  }

  ghost predicate ReachedFrom(cat: Catalog, ds: map<Iri, nat>, cap: map<Iri, nat>, d: Iri)
    requires d in ds
  {
    exists c :: c in cap && d in cat.Outputs(c) && ds[d] == cap[c] + 1
  }

  ghost predicate Sound(cat: Catalog, starts: set<Iri>, ds: map<Iri, nat>, cap: map<Iri, nat>) {
    OnlyDerivable(cat, starts, ds) && CapacitiesFit(cat, ds, cap) && LeastAboveProducers(cat, starts, ds, cap)
  }

  lemma AddKeepsDerivable(cat: Catalog, starts: set<Iri>, ds: map<Iri, nat>, c: Iri, s: nat, ds': map<Iri, nat>)
    requires OnlyDerivable(cat, starts, ds) && Satisfied(cat, c, ds.Keys) && Lowered(ds, cat.Outputs(c), s, ds')
    ensures OnlyDerivable(cat, starts, ds')
  {
    forall d | d in cat.Outputs(c) ensures Derivable(cat, starts, d) {
      forall closed: set<Iri> | Closed(cat, starts, {}, closed) ensures d in closed {
        assert ds.Keys <= closed;
        SatisfiedMonotone(cat, c, ds.Keys, closed);
      }
    }
  }

  lemma AddKeepsCapacities(cat: Catalog, ds: map<Iri, nat>, cap: map<Iri, nat>, c: Iri, s: nat, ds': map<Iri, nat>)
    requires CapacitiesFit(cat, ds, cap) && Satisfied(cat, c, ds.Keys) && Above(cat, c, ds, s) && Lowered(ds, cat.Outputs(c), s, ds')
    ensures CapacitiesFit(cat, ds', cap[c := s])
  {
    forall q | q in cap[c := s] ensures Satisfied(cat, q, ds'.Keys) && Above(cat, q, ds', cap[c := s][q]) {
      SatisfiedMonotone(cat, q, ds.Keys, ds'.Keys);
    }
  }

  lemma AddKeepsStrata(cat: Catalog, starts: set<Iri>, ds: map<Iri, nat>, cap: map<Iri, nat>, c: Iri, s: nat, ds': map<Iri, nat>)
    requires LeastAboveProducers(cat, starts, ds, cap) && c !in cap && Lowered(ds, cat.Outputs(c), s, ds')
    ensures LeastAboveProducers(cat, starts, ds', cap[c := s])
  {
    var cap' := cap[c := s];
    forall d | d in ds' && d !in starts ensures ReachedFrom(cat, ds', cap', d) {
      if d in ds && ds'[d] == ds[d] {
        assert ReachedFrom(cat, ds, cap, d);
        var q :| q in cap && d in cat.Outputs(q) && ds[d] == cap[q] + 1;
        assert q in cap' && cap'[q] == cap[q];
      } else {
        assert c in cap' && ds'[d] == cap'[c] + 1;
      }
    }
  }

  /** `strata`: the DataStates it keys are exactly the derivable ones, the capacities those satisfied by them. */
  method Stratify(cat: Catalog, order: seq<Iri>, starts: set<Iri>) returns (ds: map<Iri, nat>, cap: map<Iri, nat>)
    requires Listed(cat, order)
    ensures Sound(cat, starts, ds, cap)
    ensures forall d :: d in ds <==> Derivable(cat, starts, d)
    ensures forall c :: c in cap <==> Satisfied(cat, c, ds.Keys)
  {
    ds := map d | d in starts :: 0;
    cap := map[];
    StartsAreDerivable(cat, starts);
    var changed := true;
    while changed
      invariant Sound(cat, starts, ds, cap)
      invariant !changed ==> NoneMissed(cat, order, ds, cap)
      decreases cat.caps.Keys - cap.Keys, changed
    {
      ghost var before := cap.Keys;
      ds, cap, changed := Pass(cat, order, starts, ds, cap);
      assert changed ==> before < cap.Keys <= cat.caps.Keys;
    }
    KeysAreClosed(cat, order, starts, ds, cap);
  }

  ghost predicate NoneMissed(cat: Catalog, cs: seq<Iri>, ds: map<Iri, nat>, cap: map<Iri, nat>) {
    forall c | c in cs && c !in cap :: !Satisfied(cat, c, ds.Keys)
  }

  /** One pass over the capacities. */
  method Pass(cat: Catalog, order: seq<Iri>, starts: set<Iri>, ds0: map<Iri, nat>, cap0: map<Iri, nat>)
    returns (ds: map<Iri, nat>, cap: map<Iri, nat>, changed: bool)
    requires Listed(cat, order) && Sound(cat, starts, ds0, cap0)
    ensures Sound(cat, starts, ds, cap)
    ensures if changed then cap0.Keys < cap.Keys else cap == cap0 && ds == ds0 && NoneMissed(cat, order, ds, cap)
  {
    ds, cap, changed := ds0, cap0, false;
    for k := 0 to |order|
      invariant Sound(cat, starts, ds, cap)
      invariant if changed then cap0.Keys < cap.Keys else cap == cap0 && ds == ds0 && NoneMissed(cat, order[..k], ds, cap)
    {
      var c := order[k];
      assert order[..k + 1] == order[..k] + [c];
      if c !in cap {
        StratumIffSatisfied(cat, c, ds);
        var s := StratumOf(cat, c, ds);
        if s.Some? {
          var lowered := LowerOutputs(cat.Outputs(c), s.value, ds);
          AddKeepsDerivable(cat, starts, ds, c, s.value, lowered);
          AddKeepsCapacities(cat, ds, cap, c, s.value, lowered);
          AddKeepsStrata(cat, starts, ds, cap, c, s.value, lowered);
          ds, cap, changed := lowered, cap[c := s.value], true;
        }
      }
    }
    assert order[..|order|] == order;
  }

  lemma StartsAreDerivable(cat: Catalog, starts: set<Iri>)
    ensures forall d | d in starts :: Derivable(cat, starts, d)
  {}

  lemma KeysAreClosed(cat: Catalog, order: seq<Iri>, starts: set<Iri>, ds: map<Iri, nat>, cap: map<Iri, nat>)
    requires Listed(cat, order) && Sound(cat, starts, ds, cap) && NoneMissed(cat, order, ds, cap)
    ensures forall d :: d in ds <==> Derivable(cat, starts, d)
    ensures forall c :: c in cap <==> Satisfied(cat, c, ds.Keys)
  {
    assert Closed(cat, starts, {}, ds.Keys);
  }
}
