/** The capability catalog a finder reads, and what is derivable from a start set. */
module Catalogs {
  import opened Identifiers

  /** How a capacity's declared inputs combine. */
  datatype Group = AllRequired | AnyOf | Fold

  datatype Capacity = Capacity(inputs: seq<Iri>, outputs: seq<Iri>, group: Group, refused: bool)

  /** A catalog as a view shows it: every visible capacity, and the producer and consumer walks. */
  datatype RawCatalog = RawCatalog(
    caps: map<Iri, Capacity>,
    producers: map<Iri, seq<Iri>>,
    consumers: map<Iri, seq<Iri>>)
  {
    /** `producers_of` (`consumers_of`) walks the same edges as `outputs_of` (`inputs_of`). */
    ghost predicate Valid() {
      && (forall d, c :: c in Producers(d) <==> c in caps && d in caps[c].outputs)
      && (forall d, c :: c in Consumers(d) <==> c in caps && d in caps[c].inputs)
    }

    function Producers(d: Iri): seq<Iri> { if d in producers then producers[d] else [] }
    function Consumers(d: Iri): seq<Iri> { if d in consumers then consumers[d] else [] }
    function Inputs(c: Iri): seq<Iri> { if c in caps then caps[c].inputs else [] }
    function Outputs(c: Iri): seq<Iri> { if c in caps then caps[c].outputs else [] }
    function GroupOf(c: Iri): Group { if c in caps then caps[c].group else AllRequired }
    predicate Refused(c: Iri) { c in caps && caps[c].refused }

    /** Every DataState some capacity consumes or produces. */
    ghost function Universe(): set<Iri> {
      (set c, d | c in caps && d in caps[c].inputs :: d) + (set c, d | c in caps && d in caps[c].outputs :: d)
    }

    /** A DataState with a producer is one of the catalog's. */
    lemma ProducedInUniverse(c: Iri, d: Iri)
      requires Valid() && c in Producers(d)
      ensures d in Universe()
    {
      assert c in caps && d in caps[c].outputs;
    }

    lemma ConsumedInUniverse(c: Iri, d: Iri)
      requires c in caps && d in Inputs(c)
      ensures d in Universe()
    {}
  }

  type Catalog = c: RawCatalog | c.Valid() witness RawCatalog(map[], map[], map[])

  /** The capacity can run when exactly the DataStates of `held` are to hand. */
  predicate Satisfied(cat: Catalog, c: Iri, held: set<Iri>) {
    && c in cat.caps
    && !cat.Refused(c)
    && (|| cat.Inputs(c) == []
        || (cat.GroupOf(c) == AnyOf && exists d :: d in cat.Inputs(c) && d in held)
        || (cat.GroupOf(c) != AnyOf && forall d | d in cat.Inputs(c) :: d in held))
  }

  /** `s` holds the starts and every output of every capacity it satisfies, save those in `avoid`. */
  ghost predicate Closed(cat: Catalog, starts: set<Iri>, avoid: set<Iri>, s: set<Iri>) {
    && starts <= s
    && (forall c, o :: Satisfied(cat, c, s) && o in cat.Outputs(c) && o !in avoid ==> o in s)
  }

  /** The least fixpoint: `d` lies in every closed set. With `avoid` empty this is plain derivability. */
  ghost predicate DerivableAvoiding(cat: Catalog, starts: set<Iri>, avoid: set<Iri>, d: Iri) {
    forall s: set<Iri> :: Closed(cat, starts, avoid, s) ==> d in s
  }

  ghost predicate Derivable(cat: Catalog, starts: set<Iri>, d: Iri) {
    DerivableAvoiding(cat, starts, {}, d)
  }

  lemma SatisfiedMonotone(cat: Catalog, c: Iri, s: set<Iri>, t: set<Iri>)
    requires s <= t && Satisfied(cat, c, s)
    ensures Satisfied(cat, c, t)
  {}

  // The fixpoint from below: an order in which its members are derived one after another.

  ghost function Under(rank: map<Iri, nat>, n: nat): set<Iri> {
    set x | x in rank && rank[x] < n
  }

  ghost predicate ProducedFrom(cat: Catalog, held: set<Iri>, d: Iri) {
    exists c :: c in cat.Producers(d) && Satisfied(cat, c, held)
  }

  /** Every ranked DataState is a start, or is produced from DataStates of smaller rank. */
  ghost predicate Ranked(cat: Catalog, starts: set<Iri>, avoid: set<Iri>, rank: map<Iri, nat>) {
    && starts <= rank.Keys
    && forall d | d in rank && d !in starts :: d !in avoid && ProducedFrom(cat, Under(rank, rank[d]), d)
  }

  /** Any ranking grows, one new output at a time, until it is closed. */
  lemma {:induction false} GrowRanking(cat: Catalog, starts: set<Iri>, avoid: set<Iri>, rank: map<Iri, nat>, n: nat)
    returns (full: map<Iri, nat>)
    requires Ranked(cat, starts, avoid, rank) && rank.Keys == Under(rank, n)
    ensures Ranked(cat, starts, avoid, full) && Closed(cat, starts, avoid, full.Keys)
    decreases cat.Universe() - rank.Keys
  {
    if Closed(cat, starts, avoid, rank.Keys) { return rank; }
    var c, o :| Satisfied(cat, c, rank.Keys) && o in cat.Outputs(c) && o !in avoid && o !in rank;
    assert c in cat.Producers(o);
    cat.ProducedInUniverse(c, o);
    var grown := rank[o := n];
    forall m: nat | m <= n ensures Under(grown, m) == Under(rank, m) {}
    assert ProducedFrom(cat, Under(grown, n), o);
    full := GrowRanking(cat, starts, avoid, grown, n + 1);
  }

  /** The least fixpoint, ranked. */
  lemma RankFixpoint(cat: Catalog, starts: set<Iri>, avoid: set<Iri>) returns (rank: map<Iri, nat>)
    ensures Ranked(cat, starts, avoid, rank)
    ensures forall d :: DerivableAvoiding(cat, starts, avoid, d) ==> d in rank
  {
    var zero := map d | d in starts :: 0;
    assert Under(zero, 1) == starts;
    rank := GrowRanking(cat, starts, avoid, zero, 1);
  }

  /** More to start from never makes less derivable. */
  lemma DerivableMonotoneInStarts(cat: Catalog, starts: set<Iri>, more: set<Iri>, d: Iri)
    requires starts <= more && Derivable(cat, starts, d)
    ensures Derivable(cat, more, d)
  {
    forall s: set<Iri> | Closed(cat, more, {}, s) ensures d in s {
      assert Closed(cat, starts, {}, s);
    }
  }
}
