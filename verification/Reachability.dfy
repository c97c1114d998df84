/** Phase 1 of the conjunction finder: the recursion guarded by a stack of DataStates. */
module Reachability {
  import opened Identifiers
  import opened Catalogs

  /** `ds_reachable`: a DataState is producible without relying on anything on the stack. */
  predicate DsReachable(cat: Catalog, starts: set<Iri>, d: Iri, stack: set<Iri>)
    decreases cat.Universe() - stack, 0
  {
    if d in starts then true
    else if d in stack then false
    else exists c :: c in cat.Producers(d) && (cat.ProducedInUniverse(c, d); CapSatisfiable(cat, starts, c, stack + {d}))
  }

  /** `cap_satisfiable`: declaration refusal first, then the input group. */
  predicate CapSatisfiable(cat: Catalog, starts: set<Iri>, c: Iri, stack: set<Iri>)
    decreases cat.Universe() - stack, 1
  {
    if cat.Refused(c) then false
    else if cat.Inputs(c) == [] then true
    else if cat.GroupOf(c) == AnyOf then exists d :: d in cat.Inputs(c) && DsReachable(cat, starts, d, stack)
    else forall d :: d in cat.Inputs(c) ==> DsReachable(cat, starts, d, stack)
  }

  /** What the recursion accepts lies in every closed set. */
  lemma {:induction false} ReachableIsInClosed(cat: Catalog, starts: set<Iri>, d: Iri, stack: set<Iri>, s: set<Iri>)
    requires DsReachable(cat, starts, d, stack) && Closed(cat, starts, stack, s)
    ensures d in s
    decreases cat.Universe() - stack
  {
    if d !in starts {
      var nxt := stack + {d};
      var c :| c in cat.Producers(d) && CapSatisfiable(cat, starts, c, nxt);
      cat.ProducedInUniverse(c, d);
      assert Closed(cat, starts, nxt, s);
      forall i | i in cat.Inputs(c) && DsReachable(cat, starts, i, nxt) ensures i in s {
        ReachableIsInClosed(cat, starts, i, nxt, s);
      }
      assert Satisfied(cat, c, s);
    }
  }

  /** What a ranking derives, the recursion accepts, as long as the stack holds nothing of so small a rank. */
  lemma {:induction false} RankedIsReachable(
    cat: Catalog, starts: set<Iri>, avoid: set<Iri>, rank: map<Iri, nat>, d: Iri, stack: set<Iri>)
    requires Ranked(cat, starts, avoid, rank) && d in rank
    requires forall x | x in stack && x in rank && x !in starts :: rank[d] < rank[x]
    ensures DsReachable(cat, starts, d, stack)
    decreases rank[d]
  {
    if d !in starts {
      var below := Under(rank, rank[d]);
      var c :| c in cat.Producers(d) && Satisfied(cat, c, below);
      var nxt := stack + {d};
      forall i | i in cat.Inputs(c) && i in below ensures DsReachable(cat, starts, i, nxt) {
        RankedIsReachable(cat, starts, avoid, rank, i, nxt);
      }
      SatisfiedIsSatisfiable(cat, starts, c, below, nxt);
      ProducerMakesReachable(cat, starts, c, d, stack);
    }
  }

  lemma SatisfiedIsSatisfiable(cat: Catalog, starts: set<Iri>, c: Iri, held: set<Iri>, stack: set<Iri>)
    requires Satisfied(cat, c, held)
    requires forall i | i in cat.Inputs(c) && i in held :: DsReachable(cat, starts, i, stack)
    ensures CapSatisfiable(cat, starts, c, stack)
  {}

  lemma ProducerMakesReachable(cat: Catalog, starts: set<Iri>, c: Iri, d: Iri, stack: set<Iri>)
    requires c in cat.Producers(d) && d !in stack && CapSatisfiable(cat, starts, c, stack + {d})
    ensures DsReachable(cat, starts, d, stack)
  {}

  /** Under any live stack the recursion decides exactly the least fixpoint that never produces the stack. */
  lemma DsReachableIsExact(cat: Catalog, starts: set<Iri>, d: Iri, stack: set<Iri>)
    ensures DsReachable(cat, starts, d, stack) <==> DerivableAvoiding(cat, starts, stack, d)
  {
    if DsReachable(cat, starts, d, stack) {
      forall s: set<Iri> | Closed(cat, starts, stack, s) ensures d in s {
        ReachableIsInClosed(cat, starts, d, stack, s);
      }
    }
    if DerivableAvoiding(cat, starts, stack, d) {
      var rank := RankFixpoint(cat, starts, stack);
      RankedIsReachable(cat, starts, stack, rank, d, stack);
    }
  }

  /** From the empty stack the recursion decides derivability itself, `any_of` included. */
  lemma DsReachableDecidesDerivable(cat: Catalog, starts: set<Iri>, d: Iri)
    ensures DsReachable(cat, starts, d, {}) <==> Derivable(cat, starts, d)
  {
    DsReachableIsExact(cat, starts, d, {});
  }

  /** A longer stack only refuses more. */
  lemma {:induction false} ReachableAntitoneInStack(cat: Catalog, starts: set<Iri>, d: Iri, stack: set<Iri>, longer: set<Iri>)
    requires stack <= longer && DsReachable(cat, starts, d, longer)
    ensures DsReachable(cat, starts, d, stack)
  {
    DsReachableIsExact(cat, starts, d, stack);
    DsReachableIsExact(cat, starts, d, longer);
    forall s: set<Iri> | Closed(cat, starts, stack, s) ensures d in s {
      assert Closed(cat, starts, longer, s);
    }
  }

  /** The test `find` makes of the target's producers before it builds anything, with a stack that does not hold the
      target, agrees too. */
  lemma SomeSatisfiableProducerIffDerivable(cat: Catalog, starts: set<Iri>, target: Iri)
    requires target !in starts
    ensures (exists c :: c in cat.Producers(target) && CapSatisfiable(cat, starts, c, {})) <==> Derivable(cat, starts, target)
  {
    DsReachableDecidesDerivable(cat, starts, target);
    if c :| c in cat.Producers(target) && CapSatisfiable(cat, starts, c, {}) {
      forall s: set<Iri> | Closed(cat, starts, {}, s) ensures target in s {
        forall i | i in cat.Inputs(c) && DsReachable(cat, starts, i, {}) ensures i in s {
          ReachableIsInClosed(cat, starts, i, {}, s);
        }
        assert Satisfied(cat, c, s);
      }
    }
    if DsReachable(cat, starts, target, {}) {
      var c :| c in cat.Producers(target) && CapSatisfiable(cat, starts, c, {} + {target});
      forall i | i in cat.Inputs(c) && DsReachable(cat, starts, i, {} + {target}) ensures DsReachable(cat, starts, i, {}) {
        ReachableAntitoneInStack(cat, starts, i, {}, {} + {target});
      }
      assert CapSatisfiable(cat, starts, c, {});
    }
  }

  /** From the empty stack a capacity passes exactly when what is derivable satisfies it. */
  lemma CapSatisfiableFromDerivable(cat: Catalog, starts: set<Iri>, c: Iri, derivable: set<Iri>)
    requires c in cat.caps && forall d :: d in derivable <==> Derivable(cat, starts, d)
    ensures CapSatisfiable(cat, starts, c, {}) <==> Satisfied(cat, c, derivable)
  {
    forall d ensures DsReachable(cat, starts, d, {}) <==> d in derivable { DsReachableIsExact(cat, starts, d, {}); }
  }
}
