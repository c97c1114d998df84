/** The catalog views: one store, or a Local store shadowing the Global one, and the declarations beside them. */
module Views {
  import opened Identifiers
  import opened Catalogs

  datatype StoreEdge = Produces(capacity: Iri, datastate: Iri) | Consumes(datastate: Iri, capacity: Iri)

  /** A registered declaration, as far as a finder reads it. */
  datatype Declaration = Declaration(
    inputs: seq<Iri>, group: Group, operandArity: seq<(Iri, int)>, substituteFor: Option<Iri>)

  /** One metagraph: its capacity nodes, its edges in walk order, which DataStates are collections, and the
      declarations indexed beside it. */
  datatype Store = Store(
    capacities: seq<Iri>, edges: seq<StoreEdge>, collections: map<Iri, bool>, declarations: map<Iri, Declaration>)
  {
    function OutputsIn(es: seq<StoreEdge>, c: Iri): (r: seq<Iri>)
      ensures forall d :: d in r <==> Produces(c, d) in es
    {
      if es == [] then []
      else
        assert es == [es[0]] + es[1..];
        (if es[0].Produces? && es[0].capacity == c then [es[0].datastate] else []) + OutputsIn(es[1..], c)
    }

    function InputsIn(es: seq<StoreEdge>, c: Iri): (r: seq<Iri>)
      ensures forall d :: d in r <==> Consumes(d, c) in es
    {
      if es == [] then []
      else
        assert es == [es[0]] + es[1..];
        (if es[0].Consumes? && es[0].capacity == c then [es[0].datastate] else []) + InputsIn(es[1..], c)
    }

    /** Only capacities the store holds a node for. */
    function ProducersIn(es: seq<StoreEdge>, d: Iri): (r: seq<Iri>)
      ensures forall c :: c in r <==> c in capacities && Produces(c, d) in es
    {
      if es == [] then []
      else
        assert es == [es[0]] + es[1..];
        (if es[0].Produces? && es[0].datastate == d && es[0].capacity in capacities then [es[0].capacity] else [])
        + ProducersIn(es[1..], d)
    }

    function ConsumersIn(es: seq<StoreEdge>, d: Iri): (r: seq<Iri>)
      ensures forall c :: c in r <==> c in capacities && Consumes(d, c) in es
    {
      if es == [] then []
      else
        assert es == [es[0]] + es[1..];
        (if es[0].Consumes? && es[0].datastate == d && es[0].capacity in capacities then [es[0].capacity] else [])
        + ConsumersIn(es[1..], d)
    }

    // Every walk is in the order of the edges.

    lemma {:induction false} OutputsAdd(a: seq<StoreEdge>, b: seq<StoreEdge>, c: Iri)
      ensures OutputsIn(a + b, c) == OutputsIn(a, c) + OutputsIn(b, c)
    {
      if a == [] {
        assert a + b == b;
      } else {
        assert (a + b)[1..] == a[1..] + b;
        OutputsAdd(a[1..], b, c);
      }
    }

    lemma {:induction false} InputsAdd(a: seq<StoreEdge>, b: seq<StoreEdge>, c: Iri)
      ensures InputsIn(a + b, c) == InputsIn(a, c) + InputsIn(b, c)
    {
      if a == [] {
        assert a + b == b;
      } else {
        assert (a + b)[1..] == a[1..] + b;
        InputsAdd(a[1..], b, c);
      }
    }

    lemma {:induction false} ProducersAdd(a: seq<StoreEdge>, b: seq<StoreEdge>, d: Iri)
      ensures ProducersIn(a + b, d) == ProducersIn(a, d) + ProducersIn(b, d)
    {
      if a == [] {
        assert a + b == b;
      } else {
        assert (a + b)[1..] == a[1..] + b;
        ProducersAdd(a[1..], b, d);
      }
    }

    lemma {:induction false} ConsumersAdd(a: seq<StoreEdge>, b: seq<StoreEdge>, d: Iri)
      ensures ConsumersIn(a + b, d) == ConsumersIn(a, d) + ConsumersIn(b, d)
    {
      if a == [] {
        assert a + b == b;
      } else {
        assert (a + b)[1..] == a[1..] + b;
        ConsumersAdd(a[1..], b, d);
      }
    }
  }

  /** What `_view_for` resolves to: the Global store, or the union in which a Local capacity hides the Global
      one of the same IRI entirely. */
  datatype View = GlobalView(global: Store) | LocalPreferring(local: Store, global: Store)
  {
    predicate Shadowed(c: Iri) { LocalPreferring? && c in local.capacities }

    function SourceFor(c: Iri): Store { if Shadowed(c) then local else global }

    function OutputsOf(c: Iri): seq<Iri> { SourceFor(c).OutputsIn(SourceFor(c).edges, c) }
    function InputsOf(c: Iri): seq<Iri> { SourceFor(c).InputsIn(SourceFor(c).edges, c) }

    predicate OnceEach(s: seq<Iri>) { forall i, j | 0 <= i < j < |s| :: s[i] != s[j] }

    /** Nodes merged one lot after another, each in its order. */
    lemma {:induction false} MergedInOrder(merged: seq<Iri>, a: seq<Iri>, b: seq<Iri>)
      ensures MergeNodes(merged, a + b) == MergeNodes(MergeNodes(merged, a), b)
      decreases |a|
    {
      if a == [] {
        assert a + b == b;
      } else {
        assert (a + b)[1..] == a[1..] + b;
        MergedInOrder(if Shadowed(a[0]) || a[0] in merged then merged else merged + [a[0]], a[1..], b);
      }
    }

    /** `_merge_nodes`, continued over `nodes` from what is already merged. */
    function MergeNodes(merged: seq<Iri>, nodes: seq<Iri>): (r: seq<Iri>)
      ensures forall c :: c in r <==> c in merged || (c in nodes && !Shadowed(c))
      ensures merged <= r && (OnceEach(merged) ==> OnceEach(r))
      decreases |nodes|
    {
      if nodes == [] then merged
      else
        assert nodes == [nodes[0]] + nodes[1..];
        MergeNodes(if Shadowed(nodes[0]) || nodes[0] in merged then merged else merged + [nodes[0]], nodes[1..])
    }

    function ProducersOf(d: Iri): seq<Iri> {
      match this
      case GlobalView(g) => g.ProducersIn(g.edges, d)
      case LocalPreferring(l, g) => MergeNodes(l.ProducersIn(l.edges, d), g.ProducersIn(g.edges, d))
    }

    function ConsumersOf(d: Iri): seq<Iri> {
      match this
      case GlobalView(g) => g.ConsumersIn(g.edges, d)
      case LocalPreferring(l, g) => MergeNodes(l.ConsumersIn(l.edges, d), g.ConsumersIn(g.edges, d))
    }

    /** `iter_capacities`. */
    function Capacities(): seq<Iri> {
      match this
      case GlobalView(g) => g.capacities
      case LocalPreferring(l, g) => MergeNodes(l.capacities, g.capacities)
    }

    function Visible(): set<Iri> { set c | c in Capacities() }

    /** `resolve_declaration`: the Local one first. Absent when neither store declares the capacity. */
    function Resolve(c: Iri): Option<Declaration> {
      if LocalPreferring? && c in local.declarations then Some(local.declarations[c])
      else if c in global.declarations then Some(global.declarations[c])
      else None
    }

    /** A capacity that is declared locally is read from there, whatever the Global store declares; any other is read as in
        the Global view, which shows exactly what its store declares. The same goes for what is a collection. */
    lemma LocalFirst(c: Iri)
      ensures LocalPreferring? && c in local.declarations ==> Resolve(c) == GlobalView(local).Resolve(c)
      ensures !(LocalPreferring? && c in local.declarations) ==> Resolve(c) == GlobalView(global).Resolve(c)
      ensures GlobalView(global).Resolve(c) == if c in global.declarations then Some(global.declarations[c]) else None
      ensures LocalPreferring? && c in local.collections ==> IsCollection(c) == GlobalView(local).IsCollection(c)
      ensures !(LocalPreferring? && c in local.collections) ==> IsCollection(c) == GlobalView(global).IsCollection(c)
      ensures GlobalView(global).IsCollection(c) <==> c in global.collections && global.collections[c]
    {}

    predicate IsCollection(d: Iri) {
      if LocalPreferring? && d in local.collections then local.collections[d]
      else d in global.collections && global.collections[d]
    }

    /** The walks from a DataState and from a capacity read the same edges, in either view: a shadowed Global
        capacity is gone with its node and all of its edges. */
    lemma WalksAreInverse(c: Iri, d: Iri)
      ensures c in ProducersOf(d) <==> c in Visible() && d in OutputsOf(c)
      ensures c in ConsumersOf(d) <==> c in Visible() && d in InputsOf(c)
    {}

    /** `arity_unroutable_inputs`: scalar inputs that want more than one value. */
    function ArityUnroutable(arity: seq<(Iri, int)>): (r: seq<Iri>)
      ensures forall d | d in r :: (exists k :: 0 <= k < |arity| && arity[k].0 == d && arity[k].1 > 1) && !IsCollection(d)
      ensures forall k | 0 <= k < |arity| && arity[k].1 > 1 && !IsCollection(arity[k].0) :: arity[k].0 in r
      ensures r != [] <==> exists k :: 0 <= k < |arity| && arity[k].1 > 1 && !IsCollection(arity[k].0)
    {
      if arity == [] then []
      else
        var rest := ArityUnroutable(arity[1..]);
        if arity[0].1 > 1 && !IsCollection(arity[0].0) then [arity[0].0] + rest else
          assert rest != [] ==> exists k :: 1 <= k < |arity| && arity[k].1 > 1 && !IsCollection(arity[k].0) by {
            if rest != [] {
              var k :| 0 <= k < |arity[1..]| && arity[1..][k].1 > 1 && !IsCollection(arity[1..][k].0);
              assert arity[k + 1] == arity[1..][k];
            }
          }
          assert forall k | 1 <= k < |arity| :: arity[k] == arity[1..][k - 1];
          rest
    }

    /** No route may use the capacity: it stands in for a reader, or wants several values on a scalar input. */
    predicate Refuses(c: Iri) {
      match Resolve(c)
      case None => false
      case Some(decl) => decl.substituteFor.Some? || ArityUnroutable(decl.operandArity) != []
    }

    /** The inputs named when the capacity is refused. */
    function RefusedInputs(c: Iri): seq<Iri> {
      match Resolve(c)
      case None => []
      case Some(decl) => if decl.substituteFor.Some? then decl.inputs else ArityUnroutable(decl.operandArity)
    }

    /** Declared to take more than one value of this scalar. */
    ghost predicate WantsSeveral(decl: Declaration, d: Iri) {
      !IsCollection(d) && exists k :: 0 <= k < |decl.operandArity| && decl.operandArity[k].0 == d && decl.operandArity[k].1 > 1
    }

    /** Declared as a substitute, or to take more than one value of a scalar. */
    ghost predicate Unroutable(c: Iri) {
      match Resolve(c)
      case None => false
      case Some(decl) => decl.substituteFor.Some? || exists d :: WantsSeveral(decl, d)
    }

    /** The inputs to name: a substitute's all, otherwise the scalars of which it wants several. */
    ghost predicate NamedFor(c: Iri, ds: seq<Iri>) {
      match Resolve(c)
      case None => false
      case Some(decl) =>
        if decl.substituteFor.Some? then ds == decl.inputs else forall d :: d in ds <==> WantsSeveral(decl, d)
    }

    lemma RefusesUnroutable(c: Iri)
      ensures Refuses(c) <==> Unroutable(c)
      ensures Refuses(c) ==> NamedFor(c, RefusedInputs(c))
    {
      match Resolve(c)
      case None =>
      case Some(decl) =>
        var r := ArityUnroutable(decl.operandArity);
        forall d ensures d in r <==> WantsSeveral(decl, d) {}
        if r != [] { assert r[0] in r; }
    }

    /** `declaration_refusals`: the refused capacities, each with the inputs that make it unroutable. */
    method DeclarationRefusals() returns (refusals: map<Iri, seq<Iri>>)
      ensures forall c :: c in refusals <==> c in Visible() && Refuses(c)
      ensures forall c | c in refusals :: refusals[c] == RefusedInputs(c)
      ensures AreRefusals(refusals)
    {
      refusals := map[];
      var nodes := Capacities();
      for k := 0 to |nodes|
        invariant forall c :: c in refusals <==> c in nodes[..k] && Refuses(c)
        invariant forall c | c in refusals :: refusals[c] == RefusedInputs(c)
      {
        var c := nodes[k];
        assert nodes[..k + 1] == nodes[..k] + [c];
        match Resolve(c) {
          case None =>
          case Some(decl) =>
            if decl.substituteFor.Some? {
              refusals := refusals[c := decl.inputs];
            } else {
              var bad := ArityUnroutable(decl.operandArity);
              if bad != [] { refusals := refusals[c := bad]; }
            }
        }
      }
      assert nodes[..|nodes|] == nodes;
      RefusalsSay(refusals);
    }

    /** The visible capacities that no route can feed, each with the inputs that make it so. */
    ghost predicate AreRefusals(refusals: map<Iri, seq<Iri>>) {
      && (forall c :: c in refusals <==> c in Visible() && Unroutable(c))
      && forall c | c in refusals :: NamedFor(c, refusals[c])
    }

    lemma RefusalsSay(refusals: map<Iri, seq<Iri>>)
      requires forall c :: c in refusals <==> c in Visible() && Refuses(c)
      requires forall c | c in refusals :: refusals[c] == RefusedInputs(c)
      ensures AreRefusals(refusals)
    {
      forall c ensures (Refuses(c) <==> Unroutable(c)) && (Refuses(c) ==> NamedFor(c, RefusedInputs(c))) { RefusesUnroutable(c); }
    }

    function GroupOf(c: Iri): Group {
      match Resolve(c) case None => AllRequired case Some(decl) => decl.group
    }

    ghost function Datastates(): set<Iri> {
      (set c, d | c in Visible() && d in OutputsOf(c) :: d) + (set c, d | c in Visible() && d in InputsOf(c) :: d)
    }

    ghost function RawCatalogOf(): RawCatalog {
      RawCatalog(
        map c | c in Visible() :: Capacity(InputsOf(c), OutputsOf(c), GroupOf(c), Refuses(c)),
        map d | d in Datastates() :: ProducersOf(d),
        map d | d in Datastates() :: ConsumersOf(d))
    }

    lemma ProducersAgree(c: Iri, d: Iri)
      ensures var cat := RawCatalogOf(); c in cat.Producers(d) <==> c in cat.caps && d in cat.caps[c].outputs
    {
      WalksAreInverse(c, d);
      if d !in Datastates() { assert !(c in Visible() && d in OutputsOf(c)); }
    }

    lemma ConsumersAgree(c: Iri, d: Iri)
      ensures var cat := RawCatalogOf(); c in cat.Consumers(d) <==> c in cat.caps && d in cat.caps[c].inputs
    {
      WalksAreInverse(c, d);
      if d !in Datastates() { assert !(c in Visible() && d in InputsOf(c)); }
    }

    /** What a finder reads of a view: the visible capacities, each with the edges of the store that shows it, as declared in
        that store's stead, and refused for what it is declared to be. */
    lemma CatalogShows(c: Iri, d: Iri)
      ensures var cat := RawCatalogOf(); c in cat.caps <==> c in Capacities()
      ensures var cat := RawCatalogOf(); var s := SourceFor(c);
        c in Capacities() ==>
          && (d in cat.caps[c].inputs <==> Consumes(d, c) in s.edges) && (d in cat.caps[c].outputs <==> Produces(c, d) in s.edges)
          && cat.caps[c].group == (if Resolve(c).Some? then Resolve(c).value.group else AllRequired)
          && (cat.caps[c].refused <==> Unroutable(c))
      ensures SourceFor(c) == if LocalPreferring? && c in local.capacities then local else global
    {
      RefusesUnroutable(c);
    }

    /** Whatever the stores hold, the catalog a view shows a finder meets what the finders rely on. */
    lemma CatalogIsValid()
      ensures RawCatalogOf().Valid()
    {
      forall d, c { ProducersAgree(c, d); }
      forall d, c { ConsumersAgree(c, d); }
    }
  }
}
