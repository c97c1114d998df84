/** Where breadth-first search falls short: capacities with two inputs outside the starts. */
module BfsLimits {
  import opened Identifiers
  import opened Catalogs
  import opened Admission
  import opened Pipelines
  import opened BfsSearch
  import opened BfsFinder
  import opened Folding

  predicate Different(n: seq<Iri>) { forall i, j | 0 <= i < j < |n| :: n[i] != n[j] }

  ghost predicate Has(cat: Catalog, c: Iri, inputs: seq<Iri>, outputs: seq<Iri>) {
    c in cat.caps && cat.caps[c] == Capacity(inputs, outputs, AllRequired, false)
  }

  // ---- a target derivable by no linear route ----

  /** The names of three capacities and four DataStates. */
  datatype Names = Names(a: Iri, b: Iri, j: Iri, s: Iri, t: Iri, x: Iri, y: Iri)

  /** `a` makes `x` and `b` makes `y`, each from `s`; `j` makes `t` from both. */
  ghost predicate IsDiamond(cat: Catalog, n: Names) {
    && Different([n.a, n.b, n.j]) && Different([n.s, n.t, n.x, n.y])
    && (forall k :: k in cat.caps <==> k == n.a || k == n.b || k == n.j)
    && Has(cat, n.a, [n.s], [n.x]) && Has(cat, n.b, [n.s], [n.y]) && Has(cat, n.j, [n.x, n.y], [n.t])
  }

  lemma DiamondNames(n: Names)
    requires Different([n.a, n.b, n.j]) && Different([n.s, n.t, n.x, n.y])
    ensures n.a != n.b && n.a != n.j && n.b != n.j
    ensures n.s != n.t && n.s != n.x && n.s != n.y && n.t != n.x && n.t != n.y && n.x != n.y
  {
    var c, d := [n.a, n.b, n.j], [n.s, n.t, n.x, n.y];
    assert c[0] != c[1] && c[0] != c[2] && c[1] != c[2];
    assert d[0] != d[1] && d[0] != d[2] && d[0] != d[3] && d[1] != d[2] && d[1] != d[3] && d[2] != d[3];
  }

  /** Such a catalog for any choice of names. */
  lemma DiamondExists(n: Names) returns (cat: Catalog)
    requires Different([n.a, n.b, n.j]) && Different([n.s, n.t, n.x, n.y])
    ensures IsDiamond(cat, n)
  {
    DiamondNames(n);
    var caps := map[
      n.a := Capacity([n.s], [n.x], AllRequired, false), n.b := Capacity([n.s], [n.y], AllRequired, false),
      n.j := Capacity([n.x, n.y], [n.t], AllRequired, false)];
    var raw := RawCatalog(caps, map[n.x := [n.a], n.y := [n.b], n.t := [n.j]],
      map[n.s := [n.a, n.b], n.x := [n.j], n.y := [n.j]]);
    forall d, c ensures c in raw.Producers(d) <==> c in caps && d in caps[c].outputs {
      assert c in caps ==> c == n.a || c == n.b || c == n.j;
    }
    forall d, c ensures c in raw.Consumers(d) <==> c in caps && d in caps[c].inputs {
      assert c in caps ==> c == n.a || c == n.b || c == n.j;
    }
    cat := raw;
  }

  lemma DiamondIsDerivable(cat: Catalog, n: Names)
    requires IsDiamond(cat, n)
    ensures Derivable(cat, {n.s}, n.t)
  {
    forall s: set<Iri> | Closed(cat, {n.s}, {}, s) ensures n.t in s {
      assert Satisfied(cat, n.a, s) && n.x in cat.Outputs(n.a);
      assert Satisfied(cat, n.b, s) && n.y in cat.Outputs(n.b);
      assert Satisfied(cat, n.j, s) && n.t in cat.Outputs(n.j);
    }
  }

  /** Every hop of a linear route after the first leaves from something a step produced, and nothing produces `s`. */
  lemma OnlyFirstReadsTheStart(cat: Catalog, n: Names, steps: seq<DagStep>, edges: seq<DagEdge>, i: nat)
    requires IsDiamond(cat, n) && Linear(cat, {n.s}, steps, edges) && i < |steps| && steps[i].capacity in {n.a, n.b}
    ensures i == 0
  {
    DiamondNames(n);
    NothingMakesTheStart(cat, n, steps, edges, if i == 0 then 0 else i - 1);
    assert LinkFits(cat, {n.s}, steps, edges, i);
  }

  lemma NothingMakesTheStart(cat: Catalog, n: Names, steps: seq<DagStep>, edges: seq<DagEdge>, i: nat)
    requires IsDiamond(cat, n) && Linear(cat, {n.s}, steps, edges) && i < |steps|
    ensures n.s !in steps[i].outputs
  {
    DiamondNames(n);
    assert LinkFits(cat, {n.s}, steps, edges, i);
  }

  /** What `x` or `y` comes from is the first step. */
  lemma MadeByTheFirst(cat: Catalog, n: Names, steps: seq<DagStep>, edges: seq<DagEdge>, k: nat, d: Iri)
    requires IsDiamond(cat, n) && Linear(cat, {n.s}, steps, edges) && k <= |steps|
    requires d in {n.x, n.y} && d in Blackboard({n.s}, steps, k)
    ensures steps != [] && steps[0].capacity == if d == n.x then n.a else n.b
  {
    DiamondNames(n);
    BlackboardHolds({n.s}, steps, k, d);
    var i :| 0 <= i < k && d in steps[i].outputs;
    assert LinkFits(cat, {n.s}, steps, edges, i);
    OnlyFirstReadsTheStart(cat, n, steps, edges, i);
  }

  /** The target is derivable, yet no linear route of any length reaches it, so breadth-first search finds none. */
  lemma DerivableWithoutLinearRoute(cat: Catalog, n: Names, steps: seq<DagStep>, edges: seq<DagEdge>)
    requires IsDiamond(cat, n) && steps != [] && Linear(cat, {n.s}, steps, edges)
    ensures Derivable(cat, {n.s}, n.t) && !Arrived({n.s}, steps, n.t)
  {
    DiamondNames(n);
    DiamondIsDerivable(cat, n);
    var last := |steps| - 1;
    assert LinkFits(cat, {n.s}, steps, edges, last);
    if Arrived({n.s}, steps, n.t) {
      MadeByTheFirst(cat, n, steps, edges, last, n.x);
      MadeByTheFirst(cat, n, steps, edges, last, n.y);
    }
  }

  // ---- a linear route missed, and a longer one returned ----

  /** A DataState reached two ways, first by the way on which what else is needed later is missing: `c1`
      makes `x` and `c2` makes `w`, each from `s`; `c3` makes `x` again, from `w`; `b` makes `z` from `x`; and `j` makes
      `t` from `z` and `w`. */
  datatype Trap = Trap(c1: Iri, c2: Iri, c3: Iri, b: Iri, j: Iri, s: Iri, x: Iri, w: Iri, z: Iri, t: Iri)
  {
    ghost predicate In(cat: Catalog) {
      && Has(cat, c1, [s], [x]) && Has(cat, c2, [s], [w]) && Has(cat, c3, [w], [x]) && Has(cat, b, [x], [z]) && Has(cat, j, [z, w], [t])
      && cat.Consumers(x) == [b] && cat.Consumers(w) == [c3, j] && cat.Consumers(z) == [j]
    }

    ghost predicate Apart() {
      && c1 != c2 && c1 != c3 && c1 != b && c1 != j && c2 != c3 && c2 != b && c2 != j && c3 != b && c3 != j && b != j
      && s != x && s != w && s != z && s != t && x != w && x != z && x != t && w != z && w != t && z != t
    }
  }

  lemma PassesWithout(b: Bfs, e: Entry, c: Iri, d: Iri)
    requires d in b.cat.Inputs(c) && d !in Blackboard(b.starts, e.steps, |e.steps|)
    ensures b.Passes(e, c)
  {
    assert d in UnavailableInputs(b.cat.Inputs(c), Blackboard(b.starts, e.steps, |e.steps|));
  }

  lemma TakesWith(b: Bfs, e: Entry, c: Iri)
    requires !b.cat.Refused(c) && forall d | d in b.cat.Inputs(c) :: d in Blackboard(b.starts, e.steps, |e.steps|)
    ensures !b.Passes(e, c)
  {
    var missing := UnavailableInputs(b.cat.Inputs(c), Blackboard(b.starts, e.steps, |e.steps|));
    if |missing| > 0 { SomeIn(missing); }
  }

  lemma SomeIn(s: seq<Iri>)
    requires |s| > 0
    ensures exists d :: d in s
  {
    assert s[0] in s;
  }

  /** What comes of a capacity with one input and one output. */
  lemma TakeSimple(b: Bfs, e: Entry, c: Iri, o: Iri, queue: seq<Entry>, visited: set<Iri>)
    requires Has(b.cat, c, [e.at], [o]) && Arrived(b.starts, e.steps, e.at)
    ensures b.Take(e, c, queue, visited) ==
      if o == b.target then Hit(Pipeline(b.starts, b.target, e.steps + [StepOf(b.cat, c)], EdgesWith(e)))
      else if o in visited then Swept(queue, visited)
      else Swept(queue + [Next(b.cat, e, c, o)], visited + {o})
  {
    ArrivedIsOnBlackboard(b.starts, e.steps, e.at);
    TakesWith(b, e, c);
    forall q, v ensures b.Note(e, c, 1, q, v) == Swept(q, v) {}
  }

  lemma ExpandOne(b: Bfs, e: Entry, c: Iri, queue: seq<Entry>, visited: set<Iri>)
    requires b.cat.Consumers(e.at) == [c]
    ensures b.Expand(e, 0, queue, visited) == b.Take(e, c, queue, visited)
  {
    var r := b.Take(e, c, queue, visited);
    if r.Swept? { assert b.Expand(e, 1, r.queue, r.visited) == r; }
  }

  /** Going on from one consumer to those after it. */
  lemma ExpandThen(b: Bfs, e: Entry, k: nat, queue: seq<Entry>, visited: set<Iri>, queue': seq<Entry>, visited': set<Iri>)
    requires k < |b.cat.Consumers(e.at)| && b.Take(e, b.cat.Consumers(e.at)[k], queue, visited) == Swept(queue', visited')
    ensures b.Expand(e, k, queue, visited) == b.Expand(e, k + 1, queue', visited')
  {}

  /** The walk from one queue comes to the same as the walk from another. */
  ghost predicate Leads(b: Bfs, queue: seq<Entry>, visited: set<Iri>, queue': seq<Entry>, visited': set<Iri>) {
    forall key {:trigger Asked(key)} :: Asked(key) ==>
      && visited <= b.starts + b.cat.Universe() && visited' <= b.starts + b.cat.Universe()
      && b.Walk(queue, visited) == b.Walk(queue', visited')
  }

  lemma LeadsOn(b: Bfs, q: seq<Entry>, v: set<Iri>, q': seq<Entry>, v': set<Iri>, q'': seq<Entry>, v'': set<Iri>)
    requires Leads(b, q, v, q', v') && Leads(b, q', v', q'', v'')
    ensures Leads(b, q, v, q'', v'')
  {
    assert Asked(0);
  }

  /** One entry taken off the queue. */
  lemma WalkOn(b: Bfs, e: Entry, rest: seq<Entry>, visited: set<Iri>, queue': seq<Entry>, visited': set<Iri>)
    requires visited <= b.starts + b.cat.Universe() && |e.steps| < b.maxDepth
    requires b.Expand(e, 0, rest, visited) == Swept(queue', visited')
    ensures visited' <= b.starts + b.cat.Universe() && Leads(b, [e] + rest, visited, queue', visited')
  {
    assert ([e] + rest)[1..] == rest;
  }

  function Start(s: Iri): Entry { Entry(s, [], [], START) }
  function AtX(cat: Catalog, n: Trap): Entry { Next(cat, Start(n.s), n.c1, n.x) }
  function AtW(cat: Catalog, n: Trap): Entry { Next(cat, Start(n.s), n.c2, n.w) }
  function AtZ(cat: Catalog, n: Trap): Entry { Next(cat, AtX(cat, n), n.b, n.z) }

  ghost predicate Searches(b: Bfs, n: Trap) { n.In(b.cat) && n.Apart() && b.starts == {n.s} && b.target == n.t }

  lemma FromX(b: Bfs, n: Trap, rest: seq<Entry>, visited: set<Iri>)
    requires Searches(b, n) && n.z !in visited
    ensures b.Expand(AtX(b.cat, n), 0, rest, visited) == Swept(rest + [AtZ(b.cat, n)], visited + {n.z})
  {
    ExpandOne(b, AtX(b.cat, n), n.b, rest, visited);
    TakeSimple(b, AtX(b.cat, n), n.b, n.z, rest, visited);
  }

  /** At `w`, `x` is visited already and `z` is not on the path. */
  lemma FromW(b: Bfs, n: Trap, rest: seq<Entry>, visited: set<Iri>)
    requires Searches(b, n) && n.x in visited
    ensures b.Expand(AtW(b.cat, n), 0, rest, visited) == Swept(rest, visited)
  {
    var e := AtW(b.cat, n);
    TakeSimple(b, e, n.c3, n.x, rest, visited);
    BlackboardHolds(b.starts, e.steps, |e.steps|, n.z);
    PassesWithout(b, e, n.j, n.z);
    ExpandThen(b, e, 0, rest, visited, rest, visited);
    ExpandThen(b, e, 1, rest, visited, rest, visited);
  }

  /** At `z`, reached through `c1`, `w` is not on the path. */
  lemma FromZ(b: Bfs, n: Trap, rest: seq<Entry>, visited: set<Iri>)
    requires Searches(b, n)
    ensures b.Expand(AtZ(b.cat, n), 0, rest, visited) == Swept(rest, visited)
  {
    var e := AtZ(b.cat, n);
    BlackboardHolds(b.starts, e.steps, |e.steps|, n.w);
    assert e.steps[0] == StepOf(b.cat, n.c1) && e.steps[1] == StepOf(b.cat, n.b);
    PassesWithout(b, e, n.j, n.w);
    ExpandOne(b, e, n.j, rest, visited);
  }

  lemma FromStart(b: Bfs, n: Trap)
    requires Searches(b, n) && 2 <= |b.cat.Consumers(n.s)| && b.cat.Consumers(n.s)[..2] == [n.c1, n.c2]
    ensures b.Expand(Start(n.s), 0, [], {n.s}) == b.Expand(Start(n.s), 2, [AtX(b.cat, n), AtW(b.cat, n)], {n.s, n.x, n.w})
  {
    var e := Start(n.s);
    assert b.cat.Consumers(n.s)[..2][0] == b.cat.Consumers(n.s)[0] && b.cat.Consumers(n.s)[..2][1] == b.cat.Consumers(n.s)[1];
    TakeSimple(b, e, n.c1, n.x, [], {n.s});
    ExpandThen(b, e, 0, [], {n.s}, [AtX(b.cat, n)], {n.s, n.x});
    TakeSimple(b, e, n.c2, n.w, [AtX(b.cat, n)], {n.s, n.x});
    ExpandThen(b, e, 1, [AtX(b.cat, n)], {n.s, n.x}, [AtX(b.cat, n), AtW(b.cat, n)], {n.s, n.x, n.w});
  }

  function MissedSteps(cat: Catalog, n: Trap): seq<DagStep> {
    [StepOf(cat, n.c2), StepOf(cat, n.c3), StepOf(cat, n.b), StepOf(cat, n.j)]
  }

  function MissedEdges(n: Trap): seq<DagEdge> {
    [DagEdge(START, 0, n.s), DagEdge(0, 1, n.w), DagEdge(1, 2, n.x), DagEdge(2, 3, n.z)]
  }

  /** `c2`, `c3`, `b`, `j` is a linear route of four steps. */
  lemma MissedIsLinear(cat: Catalog, n: Trap)
    requires n.In(cat) && n.Apart()
    ensures Linear(cat, {n.s}, MissedSteps(cat, n), MissedEdges(n)) && Arrived({n.s}, MissedSteps(cat, n), n.t)
  {
    var steps, edges := MissedSteps(cat, n), MissedEdges(n);
    assert Blackboard({n.s}, steps, 1) == {n.s} + {n.w};
    assert Blackboard({n.s}, steps, 2) == {n.s} + {n.w} + {n.x};
    assert Blackboard({n.s}, steps, 3) == {n.s} + {n.w} + {n.x} + {n.z};
    assert LinkFits(cat, {n.s}, steps, edges, 0) && LinkFits(cat, {n.s}, steps, edges, 1);
    assert LinkFits(cat, {n.s}, steps, edges, 2) && LinkFits(cat, {n.s}, steps, edges, 3);
  }

  // Each entry popped, for any queue behind it. A queue is never written out until it is empty.

  lemma PopX(b: Bfs, n: Trap, rest: seq<Entry>, visited: set<Iri>)
    requires Searches(b, n) && n.z !in visited && b.maxDepth >= 2 && visited <= b.starts + b.cat.Universe()
    ensures visited + {n.z} <= b.starts + b.cat.Universe()
    ensures Leads(b, [AtX(b.cat, n)] + rest, visited, rest + [AtZ(b.cat, n)], visited + {n.z})
  {
    FromX(b, n, rest, visited);
    WalkOn(b, AtX(b.cat, n), rest, visited, rest + [AtZ(b.cat, n)], visited + {n.z});
  }

  lemma PopW(b: Bfs, n: Trap, rest: seq<Entry>, visited: set<Iri>)
    requires Searches(b, n) && n.x in visited && b.maxDepth >= 2 && visited <= b.starts + b.cat.Universe()
    ensures Leads(b, [AtW(b.cat, n)] + rest, visited, rest, visited)
  {
    FromW(b, n, rest, visited);
    WalkOn(b, AtW(b.cat, n), rest, visited, rest, visited);
  }

  lemma PopZ(b: Bfs, n: Trap, rest: seq<Entry>, visited: set<Iri>)
    requires Searches(b, n) && b.maxDepth >= 3 && visited <= b.starts + b.cat.Universe()
    ensures Leads(b, [AtZ(b.cat, n)] + rest, visited, rest, visited)
  {
    FromZ(b, n, rest, visited);
    WalkOn(b, AtZ(b.cat, n), rest, visited, rest, visited);
  }

  /** `x` and `w` taken off the queue, with whatever else waits behind them. */
  lemma PopXW(b: Bfs, n: Trap, x: Entry, w: Entry, z: Entry, rest: seq<Entry>, visited: set<Iri>)
    requires x == AtX(b.cat, n) && w == AtW(b.cat, n) && z == AtZ(b.cat, n)
    requires Searches(b, n) && n.x in visited && n.z !in visited && b.maxDepth >= 2 && visited <= b.starts + b.cat.Universe()
    ensures visited + {n.z} <= b.starts + b.cat.Universe()
    ensures Leads(b, [x, w] + rest, visited, rest + [z], visited + {n.z})
  {
    PopX(b, n, [w] + rest, visited);
    PopW(b, n, rest + [z], visited + {n.z});
    Regroup(x, w, z, rest);
    LeadsOn(b, [x, w] + rest, visited, [w] + rest + [z], visited + {n.z}, rest + [z], visited + {n.z});
  }

  lemma Regroup(x: Entry, w: Entry, z: Entry, rest: seq<Entry>)
    ensures [x] + ([w] + rest) == [x, w] + rest && [w] + (rest + [z]) == [w] + rest + [z]
  {}

  lemma Exhausted(b: Bfs, startList: seq<Iri>, visited: set<Iri>)
    requires b.starts == SeqSet(startList) && b.target !in b.starts
    requires Leads(b, seq(|startList|, i requires 0 <= i < |startList| => Entry(startList[i], [], [], START)), b.starts, [], visited)
    ensures b.Find(startList) == NoRoute(BfsExhausted, map[])
  {
    assert Asked(0);
  }

  lemma OneStart(b: Bfs, s: Iri)
    requires b.starts == {s}
    ensures SeqSet([s]) == b.starts && seq(|[s]|, i requires 0 <= i < |[s]| => Entry([s][i], [], [], START)) == [Start(s)]
  {}

  /** With two inputs outside the starts the search is not complete: a linear route of four steps exists, and none is
      found at any depth. */
  lemma ExistingRouteMissed(b: Bfs, n: Trap)
    requires Searches(b, n) && b.maxDepth >= 4 && b.cat.Consumers(n.s) == [n.c1, n.c2]
    ensures b.Find([n.s]) == NoRoute(BfsExhausted, map[])
    ensures Linear(b.cat, b.starts, MissedSteps(b.cat, n), MissedEdges(n)) && Arrived(b.starts, MissedSteps(b.cat, n), b.target)
  {
    MissedIsLinear(b.cat, n);
    var v := {n.s, n.x, n.w};
    StartAlone(b, n);
    PopXW(b, n, AtX(b.cat, n), AtW(b.cat, n), AtZ(b.cat, n), [], v);
    PopZ(b, n, [], v + {n.z});
    MissedWalk(b, n, AtX(b.cat, n), AtW(b.cat, n), AtZ(b.cat, n), v, v + {n.z});
  }

  lemma StartAlone(b: Bfs, n: Trap)
    requires Searches(b, n) && b.maxDepth >= 4 && b.cat.Consumers(n.s) == [n.c1, n.c2]
    ensures {n.s, n.x, n.w} <= b.starts + b.cat.Universe()
    ensures Leads(b, [Start(n.s)], {n.s}, [AtX(b.cat, n), AtW(b.cat, n)], {n.s, n.x, n.w})
  {
    FromStart(b, n);
    WalkOn(b, Start(n.s), [], {n.s}, [AtX(b.cat, n), AtW(b.cat, n)], {n.s, n.x, n.w});
    assert [Start(n.s)] + [] == [Start(n.s)];
  }

  lemma MissedWalk(b: Bfs, n: Trap, x: Entry, w: Entry, z: Entry, v: set<Iri>, v': set<Iri>)
    requires b.starts == {n.s} && b.target != n.s
    requires Leads(b, [Start(n.s)], {n.s}, [x, w], v) && Leads(b, [x, w] + [], v, [] + [z], v') && Leads(b, [z] + [], v', [], v')
    ensures b.Find([n.s]) == NoRoute(BfsExhausted, map[])
  {
    assert [x, w] + [] == [x, w] && [] + [z] == [z] && [z] + [] == [z];
    LeadsOn(b, [Start(n.s)], {n.s}, [x, w], v, [z], v');
    LeadsOn(b, [Start(n.s)], {n.s}, [z], v', [], v');
    OneStart(b, n.s);
    Exhausted(b, [n.s], v');
  }

  /** A chain of five capacities from `s` to `t` past four more DataStates. */
  datatype Detour = Detour(d1: Iri, d2: Iri, d3: Iri, d4: Iri, d5: Iri, p1: Iri, p2: Iri, p3: Iri, p4: Iri)
  {
    ghost predicate In(cat: Catalog, n: Trap) {
      && Has(cat, d1, [n.s], [p1]) && Has(cat, d2, [p1], [p2]) && Has(cat, d3, [p2], [p3]) && Has(cat, d4, [p3], [p4])
      && Has(cat, d5, [p4], [n.t])
      && cat.Consumers(n.s) == [n.c1, n.c2, d1]
      && cat.Consumers(p1) == [d2] && cat.Consumers(p2) == [d3] && cat.Consumers(p3) == [d4] && cat.Consumers(p4) == [d5]
    }

    ghost predicate Apart(n: Trap) {
      && p1 != p2 && p1 != p3 && p1 != p4 && p2 != p3 && p2 != p4 && p3 != p4
      && p1 != n.s && p1 != n.x && p1 != n.w && p1 != n.z && p1 != n.t && p2 != n.s && p2 != n.x && p2 != n.w && p2 != n.z && p2 != n.t
      && p3 != n.s && p3 != n.x && p3 != n.w && p3 != n.z && p3 != n.t && p4 != n.s && p4 != n.x && p4 != n.w && p4 != n.z && p4 != n.t
    }

    function At1(cat: Catalog, n: Trap): Entry { Next(cat, Start(n.s), d1, p1) }
    function At2(cat: Catalog, n: Trap): Entry { Next(cat, At1(cat, n), d2, p2) }
    function At3(cat: Catalog, n: Trap): Entry { Next(cat, At2(cat, n), d3, p3) }
    function At4(cat: Catalog, n: Trap): Entry { Next(cat, At3(cat, n), d4, p4) }
  }

  /** One capacity further along a chain. */
  lemma Along(b: Bfs, e: Entry, c: Iri, o: Iri, rest: seq<Entry>, visited: set<Iri>)
    requires visited <= b.starts + b.cat.Universe() && |e.steps| < b.maxDepth
    requires Has(b.cat, c, [e.at], [o]) && b.cat.Consumers(e.at) == [c] && Arrived(b.starts, e.steps, e.at)
    requires o !in visited && o != b.target
    ensures visited + {o} <= b.starts + b.cat.Universe()
    ensures Leads(b, [e] + rest, visited, rest + [Next(b.cat, e, c, o)], visited + {o})
  {
    ExpandOne(b, e, c, rest, visited);
    TakeSimple(b, e, c, o, rest, visited);
    WalkOn(b, e, rest, visited, rest + [Next(b.cat, e, c, o)], visited + {o});
  }

  /** Nor is it shortest: the route returned has five steps where one of four exists. */
  lemma LongerRouteReturned(b: Bfs, n: Trap, m: Detour)
    requires Searches(b, n) && m.In(b.cat, n) && m.Apart(n) && b.maxDepth >= 5
    ensures b.Find([n.s]).Route? && |b.Find([n.s]).pipeline.steps| == 5
    ensures Linear(b.cat, b.starts, MissedSteps(b.cat, n), MissedEdges(n)) && Arrived(b.starts, MissedSteps(b.cat, n), b.target)
  {
    MissedIsLinear(b.cat, n);
    StartDetour(b, n, m);
    var visited := LongerWalk(b, n, m, {n.s, n.x, n.w} + {m.p1});
    DetourEnds(b, n, m, visited);
  }

  /** The walk down to the second entry of the detour. */
  lemma LongerWalk(b: Bfs, n: Trap, m: Detour, v: set<Iri>) returns (v'': set<Iri>)
    requires Searches(b, n) && m.In(b.cat, n) && m.Apart(n) && b.maxDepth >= 5
    requires v <= b.starts + b.cat.Universe() && n.x in v && n.z !in v && m.p2 !in v && m.p3 !in v && m.p4 !in v
    requires Leads(b, [Start(n.s)], {n.s}, [AtX(b.cat, n), AtW(b.cat, n)] + [m.At1(b.cat, n)], v)
    ensures v'' <= b.starts + b.cat.Universe() && m.p3 !in v'' && m.p4 !in v''
    ensures Leads(b, [Start(n.s)], {n.s}, [m.At2(b.cat, n)], v'')
  {
    PopXW(b, n, AtX(b.cat, n), AtW(b.cat, n), AtZ(b.cat, n), [m.At1(b.cat, n)], v);
    DetourFirst(b, n, m, v + {n.z});
    v'' := v + {n.z} + {m.p2};
    DetourWalk(b, n, AtX(b.cat, n), AtW(b.cat, n), AtZ(b.cat, n), m.At1(b.cat, n), m.At2(b.cat, n), v, v + {n.z}, v'');
  }

  /** The third consumer of the start. */
  lemma StartThird(b: Bfs, n: Trap, m: Detour, queue: seq<Entry>, visited: set<Iri>)
    requires Searches(b, n) && m.In(b.cat, n) && m.Apart(n) && m.p1 !in visited
    ensures b.Expand(Start(n.s), 2, queue, visited) == Swept(queue + [m.At1(b.cat, n)], visited + {m.p1})
  {
    TakeSimple(b, Start(n.s), m.d1, m.p1, queue, visited);
    ExpandThen(b, Start(n.s), 2, queue, visited, queue + [m.At1(b.cat, n)], visited + {m.p1});
  }

  lemma StartDetour(b: Bfs, n: Trap, m: Detour)
    requires Searches(b, n) && m.In(b.cat, n) && m.Apart(n) && b.maxDepth >= 5
    ensures {n.s, n.x, n.w} + {m.p1} <= b.starts + b.cat.Universe()
    ensures Leads(b, [Start(n.s)], {n.s}, [AtX(b.cat, n), AtW(b.cat, n)] + [m.At1(b.cat, n)], {n.s, n.x, n.w} + {m.p1})
  {
    FromStart(b, n);
    assert m.p1 !in {n.s, n.x, n.w};
    StartThird(b, n, m, [AtX(b.cat, n), AtW(b.cat, n)], {n.s, n.x, n.w});
    WalkOn(b, Start(n.s), [], {n.s}, [AtX(b.cat, n), AtW(b.cat, n)] + [m.At1(b.cat, n)], {n.s, n.x, n.w} + {m.p1});
    Alone(Start(n.s));
  }

  /** The first of the detour, and then `z`. */
  lemma DetourFirst(b: Bfs, n: Trap, m: Detour, visited: set<Iri>)
    requires Searches(b, n) && m.In(b.cat, n) && m.Apart(n) && b.maxDepth >= 5
    requires visited <= b.starts + b.cat.Universe() && m.p2 !in visited
    ensures visited + {m.p2} <= b.starts + b.cat.Universe()
    ensures Leads(b, [m.At1(b.cat, n)] + [AtZ(b.cat, n)], visited, [AtZ(b.cat, n)] + [m.At2(b.cat, n)], visited + {m.p2})
    ensures Leads(b, [AtZ(b.cat, n)] + [m.At2(b.cat, n)], visited + {m.p2}, [m.At2(b.cat, n)], visited + {m.p2})
  {
    Along(b, m.At1(b.cat, n), m.d2, m.p2, [AtZ(b.cat, n)], visited);
    PopZ(b, n, [m.At2(b.cat, n)], visited + {m.p2});
  }

  lemma DetourWalk(b: Bfs, n: Trap, x: Entry, w: Entry, z: Entry, e1: Entry, e2: Entry, v: set<Iri>, v': set<Iri>, v'': set<Iri>)
    requires Leads(b, [Start(n.s)], {n.s}, [x, w] + [e1], v) && Leads(b, [x, w] + [e1], v, [e1] + [z], v')
    requires Leads(b, [e1] + [z], v', [z] + [e2], v'') && Leads(b, [z] + [e2], v'', [e2], v'')
    ensures Leads(b, [Start(n.s)], {n.s}, [e2], v'')
  {
    LeadsOn(b, [Start(n.s)], {n.s}, [x, w] + [e1], v, [e1] + [z], v');
    LeadsOn(b, [Start(n.s)], {n.s}, [e1] + [z], v', [z] + [e2], v'');
    LeadsOn(b, [Start(n.s)], {n.s}, [z] + [e2], v'', [e2], v'');
  }

  /** One more hop of the detour, with nothing else in the queue. */
  lemma AlongAlone(b: Bfs, s: Iri, e: Entry, c: Iri, o: Iri, visited: set<Iri>)
    requires Leads(b, [Start(s)], {s}, [e], visited)
    requires visited <= b.starts + b.cat.Universe() && |e.steps| < b.maxDepth
    requires Has(b.cat, c, [e.at], [o]) && b.cat.Consumers(e.at) == [c] && Arrived(b.starts, e.steps, e.at)
    requires o !in visited && o != b.target
    ensures visited + {o} <= b.starts + b.cat.Universe()
    ensures Leads(b, [Start(s)], {s}, [Next(b.cat, e, c, o)], visited + {o})
  {
    Along(b, e, c, o, [], visited);
    Alone(e);
    Alone(Next(b.cat, e, c, o));
    LeadsOn(b, [Start(s)], {s}, [e], visited, [Next(b.cat, e, c, o)], visited + {o});
  }

  /** The rest of the detour, which ends at the target. */
  lemma DetourEnds(b: Bfs, n: Trap, m: Detour, visited: set<Iri>)
    requires Searches(b, n) && m.In(b.cat, n) && m.Apart(n) && b.maxDepth >= 5
    requires visited <= b.starts + b.cat.Universe() && m.p3 !in visited && m.p4 !in visited
    requires Leads(b, [Start(n.s)], {n.s}, [m.At2(b.cat, n)], visited)
    ensures b.Find([n.s]).Route? && |b.Find([n.s]).pipeline.steps| == 5
  {
    AlongAlone(b, n.s, m.At2(b.cat, n), m.d3, m.p3, visited);
    AlongAlone(b, n.s, m.At3(b.cat, n), m.d4, m.p4, visited + {m.p3});
    LastHop(b, n.s, m.At4(b.cat, n), m.d5, visited + {m.p3} + {m.p4});
  }

  lemma Alone(e: Entry)
    ensures [e] + [] == [e] && [] + [e] == [e]
  {}

  lemma LastHop(b: Bfs, s: Iri, e: Entry, c: Iri, visited: set<Iri>)
    requires b.starts == {s} && b.target != s && Leads(b, [Start(s)], {s}, [e], visited)
    requires visited <= b.starts + b.cat.Universe() && |e.steps| < b.maxDepth
    requires Has(b.cat, c, [e.at], [b.target]) && b.cat.Consumers(e.at) == [c] && Arrived(b.starts, e.steps, e.at)
    ensures b.Find([s]).Route? && |b.Find([s]).pipeline.steps| == |e.steps| + 1
  {
    ExpandOne(b, e, c, [], visited);
    TakeSimple(b, e, c, b.target, [], visited);
    assert [e][1..] == [];
    OneStart(b, s);
    assert Asked(0);
  }

  // ---- such catalogs exist ----

  function AlsoAt(walk: map<Iri, seq<Iri>>, ends: seq<Iri>, c: Iri): map<Iri, seq<Iri>> {
    map d | d in walk.Keys + SeqSet(ends) ::
      (if d in walk then walk[d] else []) + (if d in ends then [c] else [])
  }

  function At(walk: map<Iri, seq<Iri>>, d: Iri): seq<Iri> { if d in walk then walk[d] else [] }

  lemma AlsoAtReads(walk: map<Iri, seq<Iri>>, ends: seq<Iri>, c: Iri, d: Iri)
    ensures At(AlsoAt(walk, ends, c), d) == At(walk, d) + if d in ends then [c] else []
  {}

  lemma AddFits(cat: Catalog, c: Iri, cap: Capacity, raw: RawCatalog)
    requires c !in cat.caps && raw.caps == cat.caps[c := cap]
    requires raw.producers == AlsoAt(cat.producers, cap.outputs, c) && raw.consumers == AlsoAt(cat.consumers, cap.inputs, c)
    ensures raw.Valid()
  {
    forall d, x ensures x in raw.Producers(d) <==> x in raw.caps && d in raw.caps[x].outputs {
      AlsoAtReads(cat.producers, cap.outputs, c, d);
      assert raw.Producers(d) == cat.Producers(d) + if d in cap.outputs then [c] else [];
    }
    forall d, x ensures x in raw.Consumers(d) <==> x in raw.caps && d in raw.caps[x].inputs {
      AlsoAtReads(cat.consumers, cap.inputs, c, d);
      assert raw.Consumers(d) == cat.Consumers(d) + if d in cap.inputs then [c] else [];
    }
  }

  /** A catalog with one more capacity, last in every walk it joins. */
  lemma Add(cat: Catalog, c: Iri, cap: Capacity) returns (more: Catalog)
    requires c !in cat.caps
    ensures more.caps == cat.caps[c := cap]
    ensures forall d :: more.Consumers(d) == cat.Consumers(d) + if d in cap.inputs then [c] else []
  {
    var raw := RawCatalog(cat.caps[c := cap], AlsoAt(cat.producers, cap.outputs, c), AlsoAt(cat.consumers, cap.inputs, c));
    AddFits(cat, c, cap, raw);
    forall d ensures raw.Consumers(d) == cat.Consumers(d) + if d in cap.inputs then [c] else [] {
      AlsoAtReads(cat.consumers, cap.inputs, c, d);
    }
    more := raw;
  }

  /** A capacity to add. */
  datatype Spec = Spec(c: Iri, inputs: seq<Iri>, output: Iri)

  function Readers(specs: seq<Spec>, k: nat, d: Iri): seq<Iri>
    decreases |specs| - k
  {
    if k >= |specs| then [] else (if d in specs[k].inputs then [specs[k].c] else []) + Readers(specs, k + 1, d)
  }

  predicate Apart(specs: seq<Spec>) { forall i, j | 0 <= i < j < |specs| :: specs[i].c != specs[j].c }

  /** All of them added one by one, from the `k`th on. */
  lemma {:induction false} AddAll(cat: Catalog, specs: seq<Spec>, k: nat) returns (more: Catalog)
    requires k <= |specs| && Apart(specs) && forall i | k <= i < |specs| :: specs[i].c !in cat.caps
    ensures forall d :: more.Consumers(d) == cat.Consumers(d) + Readers(specs, k, d)
    ensures forall c | c in cat.caps :: c in more.caps && more.caps[c] == cat.caps[c]
    ensures forall i | k <= i < |specs| :: Has(more, specs[i].c, specs[i].inputs, [specs[i].output])
    decreases |specs| - k
  {
    if k == |specs| { return cat; }
    var one := Add(cat, specs[k].c, Capacity(specs[k].inputs, [specs[k].output], AllRequired, false));
    more := AddAll(one, specs, k + 1);
    forall d ensures more.Consumers(d) == cat.Consumers(d) + Readers(specs, k, d) {
      Joined(cat.Consumers(d), if d in specs[k].inputs then [specs[k].c] else [], Readers(specs, k + 1, d));
    }
    forall i | k <= i < |specs| ensures Has(more, specs[i].c, specs[i].inputs, [specs[i].output]) {
      if i == k { assert specs[k].c in one.caps; }
    }
  }

  lemma Joined(a: seq<Iri>, b: seq<Iri>, c: seq<Iri>)
    ensures a + b + c == a + (b + c)
  {}

  function TrapSpecs(n: Trap): seq<Spec> {
    [Spec(n.c1, [n.s], n.x), Spec(n.c2, [n.s], n.w), Spec(n.c3, [n.w], n.x), Spec(n.b, [n.x], n.z), Spec(n.j, [n.z, n.w], n.t)]
  }

  /** Who reads `d`, of a trap's capacities. */
  function TrapReaders(n: Trap, d: Iri): seq<Iri> {
    if d == n.s then [n.c1, n.c2] else if d == n.x then [n.b] else if d == n.w then [n.c3, n.j] else if d == n.z then [n.j] else []
  }

  lemma TrapIsRead(n: Trap, more: seq<Spec>, d: Iri)
    requires n.Apart()
    ensures Readers(TrapSpecs(n) + more, 0, d) == TrapReaders(n, d) + Readers(TrapSpecs(n) + more, 5, d)
  {
    var specs := TrapSpecs(n) + more;
    assert specs[0] == TrapSpecs(n)[0] && specs[1] == TrapSpecs(n)[1] && specs[2] == TrapSpecs(n)[2];
    assert specs[3] == TrapSpecs(n)[3] && specs[4] == TrapSpecs(n)[4];
    var r := Readers(specs, 5, d);
    assert Readers(specs, 4, d) == (if d == n.z || d == n.w then [n.j] else []) + r;
    assert Readers(specs, 3, d) == (if d == n.x then [n.b] else []) + Readers(specs, 4, d);
    assert Readers(specs, 2, d) == (if d == n.w then [n.c3] else []) + Readers(specs, 3, d);
    assert Readers(specs, 1, d) == (if d == n.s then [n.c2] else []) + Readers(specs, 2, d);
    assert Readers(specs, 0, d) == (if d == n.s then [n.c1] else []) + Readers(specs, 1, d);
  }

  lemma TrapExists(n: Trap) returns (cat: Catalog)
    requires n.Apart()
    ensures n.In(cat) && cat.Consumers(n.s) == [n.c1, n.c2]
  {
    var specs := TrapSpecs(n);
    assert specs + [] == specs;
    cat := AddAll(RawCatalog(map[], map[], map[]), specs, 0);
    forall d ensures cat.Consumers(d) == TrapReaders(n, d) { TrapIsRead(n, [], d); }
    TrapHolds(cat, n);
  }

  lemma TrapHolds(cat: Catalog, n: Trap)
    requires n.Apart() && forall d | d in {n.x, n.w, n.z} :: cat.Consumers(d) == TrapReaders(n, d)
    requires forall i | 0 <= i < 5 :: Has(cat, TrapSpecs(n)[i].c, TrapSpecs(n)[i].inputs, [TrapSpecs(n)[i].output])
    ensures n.In(cat)
  {
    var specs := TrapSpecs(n);
    assert specs[0].c == n.c1 && specs[1].c == n.c2 && specs[2].c == n.c3 && specs[3].c == n.b && specs[4].c == n.j;
  }

  function DetourSpecs(n: Trap, m: Detour): seq<Spec> {
    [Spec(m.d1, [n.s], m.p1), Spec(m.d2, [m.p1], m.p2), Spec(m.d3, [m.p2], m.p3), Spec(m.d4, [m.p3], m.p4), Spec(m.d5, [m.p4], n.t)]
  }

  function DetourReaders(n: Trap, m: Detour, d: Iri): seq<Iri> {
    if d == n.s then [m.d1] else if d == m.p1 then [m.d2] else if d == m.p2 then [m.d3] else if d == m.p3 then [m.d4]
    else if d == m.p4 then [m.d5] else []
  }

  lemma DetourIsRead(n: Trap, m: Detour, d: Iri)
    requires m.Apart(n)
    ensures Readers(TrapSpecs(n) + DetourSpecs(n, m), 5, d) == DetourReaders(n, m, d)
  {
    var specs, mine := TrapSpecs(n) + DetourSpecs(n, m), DetourSpecs(n, m);
    assert specs[5] == mine[0] && specs[6] == mine[1] && specs[7] == mine[2] && specs[8] == mine[3] && specs[9] == mine[4];
    assert Readers(specs, 10, d) == [];
    assert Readers(specs, 9, d) == if d == m.p4 then [m.d5] else [];
    assert Readers(specs, 8, d) == (if d == m.p3 then [m.d4] else []) + Readers(specs, 9, d);
    assert Readers(specs, 7, d) == (if d == m.p2 then [m.d3] else []) + Readers(specs, 8, d);
    assert Readers(specs, 6, d) == (if d == m.p1 then [m.d2] else []) + Readers(specs, 7, d);
    assert Readers(specs, 5, d) == (if d == n.s then [m.d1] else []) + Readers(specs, 6, d);
  }

  lemma DetourExists(n: Trap, m: Detour) returns (cat: Catalog)
    requires n.Apart() && m.Apart(n) && Apart(TrapSpecs(n) + DetourSpecs(n, m))
    ensures n.In(cat) && m.In(cat, n)
  {
    var specs := TrapSpecs(n) + DetourSpecs(n, m);
    cat := AddAll(RawCatalog(map[], map[], map[]), specs, 0);
    SpecsApart(specs, TrapSpecs(n), DetourSpecs(n, m), cat);
    forall d ensures cat.Consumers(d) == Readers(specs, 0, d) {}
    DetourTrap(cat, n, m);
    DetourHolds(cat, n, m);
  }

  lemma BothRead(cat: Catalog, n: Trap, m: Detour, d: Iri)
    requires n.Apart() && m.Apart(n) && cat.Consumers(d) == Readers(TrapSpecs(n) + DetourSpecs(n, m), 0, d)
    ensures cat.Consumers(d) == TrapReaders(n, d) + DetourReaders(n, m, d)
  {
    TrapIsRead(n, DetourSpecs(n, m), d);
    DetourIsRead(n, m, d);
  }

  lemma DetourTrap(cat: Catalog, n: Trap, m: Detour)
    requires n.Apart() && m.Apart(n) && forall d :: cat.Consumers(d) == Readers(TrapSpecs(n) + DetourSpecs(n, m), 0, d)
    requires forall i | 0 <= i < 5 :: Has(cat, TrapSpecs(n)[i].c, TrapSpecs(n)[i].inputs, [TrapSpecs(n)[i].output])
    ensures n.In(cat)
  {
    forall d | d in {n.x, n.w, n.z} ensures cat.Consumers(d) == TrapReaders(n, d) {
      BothRead(cat, n, m, d);
      assert DetourReaders(n, m, d) == [];
    }
    TrapHolds(cat, n);
  }

  lemma SpecsApart(specs: seq<Spec>, first: seq<Spec>, rest: seq<Spec>, cat: Catalog)
    requires specs == first + rest && forall i | 0 <= i < |specs| :: Has(cat, specs[i].c, specs[i].inputs, [specs[i].output])
    ensures forall i | 0 <= i < |first| :: Has(cat, first[i].c, first[i].inputs, [first[i].output])
    ensures forall i | 0 <= i < |rest| :: Has(cat, rest[i].c, rest[i].inputs, [rest[i].output])
  {
    forall i | 0 <= i < |first| ensures Has(cat, first[i].c, first[i].inputs, [first[i].output]) { assert specs[i] == first[i]; }
    forall i | 0 <= i < |rest| ensures Has(cat, rest[i].c, rest[i].inputs, [rest[i].output]) { assert specs[|first| + i] == rest[i]; }
  }

  lemma DetourHolds(cat: Catalog, n: Trap, m: Detour)
    requires n.Apart() && m.Apart(n) && forall d :: cat.Consumers(d) == Readers(TrapSpecs(n) + DetourSpecs(n, m), 0, d)
    requires forall i | 0 <= i < 5 :: Has(cat, DetourSpecs(n, m)[i].c, DetourSpecs(n, m)[i].inputs, [DetourSpecs(n, m)[i].output])
    ensures m.In(cat, n)
  {
    DetourReads(cat, n, m);
    var specs := DetourSpecs(n, m);
    assert specs[0].c == m.d1 && specs[1].c == m.d2 && specs[2].c == m.d3 && specs[3].c == m.d4 && specs[4].c == m.d5;
  }

  lemma DetourReads(cat: Catalog, n: Trap, m: Detour)
    requires n.Apart() && m.Apart(n) && forall d :: cat.Consumers(d) == Readers(TrapSpecs(n) + DetourSpecs(n, m), 0, d)
    ensures cat.Consumers(n.s) == [n.c1, n.c2, m.d1]
    ensures cat.Consumers(m.p1) == [m.d2] && cat.Consumers(m.p2) == [m.d3] && cat.Consumers(m.p3) == [m.d4] && cat.Consumers(m.p4) == [m.d5]
  {
    BothRead(cat, n, m, n.s);
    BothRead(cat, n, m, m.p1);
    BothRead(cat, n, m, m.p2);
    BothRead(cat, n, m, m.p3);
    BothRead(cat, n, m, m.p4);
  }
}
