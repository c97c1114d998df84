/** The breadth-first finder: its routes are linear and run, and no shorter chain of self-sufficient hops exists. */
module BfsFinder {
  import opened Identifiers
  import opened Catalogs
  import opened Dependency
  import opened Admission
  import opened Pipelines
  import opened BfsSearch

  // ---- what a BFS route is ----

  /** Step `i` draws one input from the step before it (the first from a start), and finds all of its
      declared inputs on the blackboard. */
  ghost predicate LinkFits(cat: Catalog, starts: set<Iri>, steps: seq<DagStep>, edges: seq<DagEdge>, i: nat)
    requires i < |steps| == |edges|
  {
    && IsStepOf(cat, steps[i])
    && edges[i] == DagEdge(i - 1, i, edges[i].datastate)
    && edges[i].datastate in steps[i].inputs
    && (if i == 0 then edges[i].datastate in starts else edges[i].datastate in steps[i - 1].outputs)
    && (forall d | d in steps[i].inputs :: d in Blackboard(starts, steps, i))
  }

  ghost predicate Linear(cat: Catalog, starts: set<Iri>, steps: seq<DagStep>, edges: seq<DagEdge>) {
    && |steps| == |edges|
    && Distinct(steps)
    && forall i | 0 <= i < |steps| :: LinkFits(cat, starts, steps, edges, i)
  }

  /** The DataState a linear route has arrived at. */
  predicate Arrived(starts: set<Iri>, steps: seq<DagStep>, d: Iri) {
    if steps == [] then d in starts else d in steps[|steps| - 1].outputs
  }

  /** A chain of capacities from a start to the target, by the DataStates it passes. */
  ghost predicate ChainTo(cat: Catalog, starts: set<Iri>, target: Iri, p: seq<Iri>) {
    IsPath(cat, p) && p[0] in starts && p[|p| - 1] == target
  }

  /** `x` and the starts are all that `c` needs. */
  ghost predicate Suffices(cat: Catalog, starts: set<Iri>, x: Iri, c: Iri) {
    && c in cat.caps && !cat.Refused(c) && x in cat.Inputs(c)
    && forall d | d in cat.Inputs(c) :: d in starts || d == x
  }

  ghost predicate Hops(cat: Catalog, starts: set<Iri>, x: Iri, o: Iri) {
    exists c :: Suffices(cat, starts, x, c) && o in cat.Outputs(c)
  }

  /** A chain in which each DataState, with the starts, suffices for the capacity that makes the next. */
  ghost predicate HopChain(cat: Catalog, starts: set<Iri>, target: Iri, p: seq<Iri>) {
    && p != [] && p[0] in starts && p[|p| - 1] == target
    && forall i | 0 <= i < |p| - 1 :: Hops(cat, starts, p[i], p[i + 1])
  }

  // ---- the invariant of the walk ----

  ghost predicate EntryFits(b: Bfs, visited: set<Iri>, e: Entry) {
    && Linear(b.cat, b.starts, e.steps, e.edges) && Arrived(b.starts, e.steps, e.at)
    && e.producer == |e.steps| - 1 && e.at in visited
    && forall i | 0 <= i < |e.steps| :: OutputsVisited(b.target, visited, e.steps[i])
  }

  predicate OutputsVisited(target: Iri, visited: set<Iri>, step: DagStep) {
    forall o | o in step.outputs :: o in visited && o != target
  }

  /** Every hop from `x` leads to a visited DataState at most one step further out, never to the target. */
  ghost predicate Expanded(b: Bfs, dist: map<Iri, nat>, x: Iri)
    requires x in dist
  {
    forall o | Hops(b.cat, b.starts, x, o) :: o != b.target && o in dist && dist[o] <= dist[x] + 1
  }

  ghost predicate Frontier(b: Bfs, visited: set<Iri>, dist: map<Iri, nat>, far: int) {
    && dist.Keys == visited && b.target !in visited
    && (forall x | x in dist :: dist[x] <= far)
    && (forall x | x in b.starts :: x in dist && dist[x] == 0)
  }

  ghost predicate QueueFits(b: Bfs, visited: set<Iri>, dist: map<Iri, nat>, queue: seq<Entry>, level: nat) {
    && (forall k | 0 <= k < |queue| ::
          && EntryFits(b, visited, queue[k])
          && queue[k].at in dist && dist[queue[k].at] == |queue[k].steps|
          && level <= |queue[k].steps| <= level + 1
          && (|queue[k].steps| <= b.maxDepth || |queue[k].steps| == 0))
    && (forall j, k | 0 <= j < k < |queue| :: |queue[j].steps| <= |queue[k].steps|)
  }

  ghost predicate InQueue(queue: seq<Entry>, x: Iri) { exists k :: 0 <= k < |queue| && queue[k].at == x }

  /** What is visited, near enough and no longer waiting has been expanded. */
  ghost predicate Settled(b: Bfs, dist: map<Iri, nat>, queue: seq<Entry>, current: set<Iri>) {
    forall x | x in dist && dist[x] < b.maxDepth && x !in current && !InQueue(queue, x) :: Expanded(b, dist, x)
  }

  /** While everything nearer than `level` is expanded, no chain of at most `level` hops reaches the target. */
  lemma {:induction false} NoShorterChain(
    b: Bfs, visited: set<Iri>, dist: map<Iri, nat>, far: int, level: int, p: seq<Iri>, i: nat)
    requires Frontier(b, visited, dist, far)
    requires forall x | x in dist && dist[x] < level :: Expanded(b, dist, x)
    requires p != [] && p[0] in b.starts && i < |p| && i <= level
    requires forall k | 0 <= k < |p| - 1 :: Hops(b.cat, b.starts, p[k], p[k + 1])
    ensures p[i] in dist && dist[p[i]] <= i
  {
    if i > 0 {
      NoShorterChain(b, visited, dist, far, level, p, i - 1);
      assert Hops(b.cat, b.starts, p[i - 1], p[i]);
    }
  }

  lemma ChainsAreLonger(b: Bfs, visited: set<Iri>, dist: map<Iri, nat>, far: int, level: int)
    requires Frontier(b, visited, dist, far)
    requires forall x | x in dist && dist[x] < level :: Expanded(b, dist, x)
    ensures forall p | HopChain(b.cat, b.starts, b.target, p) :: level < |p| - 1
  {
    forall p | HopChain(b.cat, b.starts, b.target, p) ensures level < |p| - 1 {
      if |p| - 1 <= level { NoShorterChain(b, visited, dist, far, level, p, |p| - 1); }
    }
  }

  /** One more step on a linear route. */
  lemma {:induction false} LinearExtends(
    cat: Catalog, starts: set<Iri>, steps: seq<DagStep>, edges: seq<DagEdge>, step: DagStep, via: Iri)
    requires Linear(cat, starts, steps, edges) && Arrived(starts, steps, via)
    requires IsStepOf(cat, step) && via in step.inputs
    requires forall i | 0 <= i < |steps| :: steps[i].capacity != step.capacity
    requires forall d | d in step.inputs :: d in Blackboard(starts, steps, |steps|)
    ensures Linear(cat, starts, steps + [step], edges + [DagEdge(|steps| - 1, |steps|, via)])
  {
    var steps', edges' := steps + [step], edges + [DagEdge(|steps| - 1, |steps|, via)];
    forall i | 0 <= i < |steps'| ensures LinkFits(cat, starts, steps', edges', i) {
      BlackboardPrefix(starts, steps, [step], i);
      if i < |steps| { assert LinkFits(cat, starts, steps, edges, i); }
    }
  }

  lemma {:induction false} BlackboardPrefix(starts: set<Iri>, steps: seq<DagStep>, more: seq<DagStep>, i: nat)
    requires i <= |steps|
    ensures Blackboard(starts, steps + more, i) == Blackboard(starts, steps, i)
  {
    if i > 0 { BlackboardPrefix(starts, steps, more, i - 1); }
  }

  // ---- one capacity ----

  /** What a visit may do to the frontier: add to it, with everything newly visited put in the queue. */
  ghost predicate Advances(queue: seq<Entry>, visited: set<Iri>, dist: map<Iri, nat>, queue': seq<Entry>, visited': set<Iri>, dist': map<Iri, nat>) {
    && queue <= queue' && visited <= visited'
    && (forall x | x in dist :: x in dist' && dist'[x] == dist[x])
    && (forall x | x in dist' && x !in dist :: InQueue(queue', x))
  }

  ghost predicate IsShortRoute(b: Bfs, p: Pipeline, length: nat) {
    && p.starts == b.starts && p.target == b.target && |p.steps| == length && length > 0
    && Linear(b.cat, b.starts, p.steps, p.edges) && Arrived(b.starts, p.steps, b.target)
  }

  /** The first `k` outputs have been visited within `far` hops, and the target is not among them. */
  ghost predicate NotedUpTo(target: Iri, dist: map<Iri, nat>, outputs: seq<Iri>, k: nat, far: nat)
    requires k <= |outputs|
  {
    forall j | 0 <= j < k :: outputs[j] != target && outputs[j] in dist && dist[outputs[j]] <= far
  }

  lemma NotedStays(target: Iri, dist: map<Iri, nat>, dist': map<Iri, nat>, outputs: seq<Iri>, k: nat, far: nat)
    requires k <= |outputs| && NotedUpTo(target, dist, outputs, k, far)
    requires forall x | x in dist :: x in dist' && dist'[x] == dist[x]
    ensures NotedUpTo(target, dist', outputs, k, far)
  {}

  /** What holds once the first `k` outputs of the capacity are noted. */
  ghost predicate Noting(
    b: Bfs, e: Entry, c: Iri, queue: seq<Entry>, visited: set<Iri>, dist: map<Iri, nat>,
    queue': seq<Entry>, visited': set<Iri>, dist': map<Iri, nat>, k: nat)
  {
    && Frontier(b, visited', dist', |e.steps| + 1) && Advances(queue, visited, dist, queue', visited', dist')
    && Pushed(b.cat, e, c, queue', |queue|, dist')
    && (|queue'| > |queue| ==> Linear(b.cat, b.starts, e.steps + [StepOf(b.cat, c)], EdgesWith(e)))
    && k <= |b.cat.Outputs(c)| && NotedUpTo(b.target, dist', b.cat.Outputs(c), k, |e.steps| + 1)
  }

  /** The entries from `from` on are this step's outputs, one hop further out. */
  ghost predicate Pushed(cat: Catalog, e: Entry, c: Iri, queue: seq<Entry>, from: nat, dist: map<Iri, nat>) {
    forall j | from <= j < |queue| ::
      && queue[j] == Next(cat, e, c, queue[j].at)
      && queue[j].at in cat.Outputs(c) && queue[j].at in dist && dist[queue[j].at] == |e.steps| + 1
  }

  /** A capacity with an unvisited output, or with the target, is not yet on the path, so the path extends by it. */
  lemma NewStepIsLinear(b: Bfs, visited: set<Iri>, e: Entry, c: Iri, o: Iri)
    requires EntryFits(b, visited, e) && o in b.cat.Outputs(c) && (o == b.target || o !in visited)
    requires c in b.cat.Consumers(e.at) && !b.cat.Refused(c)
    requires forall d | d in b.cat.Inputs(c) :: d in Blackboard(b.starts, e.steps, |e.steps|)
    ensures Linear(b.cat, b.starts, e.steps + [StepOf(b.cat, c)], EdgesWith(e))
  {
    forall i | 0 <= i < |e.steps| ensures e.steps[i].capacity != c {
      assert LinkFits(b.cat, b.starts, e.steps, e.edges, i);
      assert OutputsVisited(b.target, visited, e.steps[i]);
    }
    LinearExtends(b.cat, b.starts, e.steps, e.edges, StepOf(b.cat, c), e.at);
  }

  lemma PushKeeps(
    b: Bfs, e: Entry, c: Iri, queue: seq<Entry>, visited: set<Iri>, dist: map<Iri, nat>,
    queue': seq<Entry>, visited': set<Iri>, dist': map<Iri, nat>, k: nat)
    requires Noting(b, e, c, queue, visited, dist, queue', visited', dist', k)
    requires k < |b.cat.Outputs(c)| && b.cat.Outputs(c)[k] !in visited' && b.cat.Outputs(c)[k] != b.target
    requires Linear(b.cat, b.starts, e.steps + [StepOf(b.cat, c)], EdgesWith(e))
    ensures var o := b.cat.Outputs(c)[k];
      Noting(b, e, c, queue, visited, dist, queue' + [Next(b.cat, e, c, o)], visited' + {o}, dist'[o := |e.steps| + 1], k + 1)
  {
    var o := b.cat.Outputs(c)[k];
    PushFrontier(b, visited', dist', |e.steps| + 1, o);
    PushAdvances(queue, visited, dist, queue', visited', dist', Next(b.cat, e, c, o), |e.steps| + 1);
    PushPushed(b.cat, e, c, queue', |queue|, dist', o);
    NotedOneMore(b.target, dist', b.cat.Outputs(c), k, |e.steps| + 1);
  }

  lemma PushFrontier(b: Bfs, visited: set<Iri>, dist: map<Iri, nat>, far: nat, o: Iri)
    requires Frontier(b, visited, dist, far) && o !in visited && o != b.target
    ensures Frontier(b, visited + {o}, dist[o := far], far)
  {}

  lemma PushPushed(cat: Catalog, e: Entry, c: Iri, queue: seq<Entry>, from: nat, dist: map<Iri, nat>, o: Iri)
    requires Pushed(cat, e, c, queue, from, dist) && o in cat.Outputs(c) && o !in dist
    ensures Pushed(cat, e, c, queue + [Next(cat, e, c, o)], from, dist[o := |e.steps| + 1])
  {}

  lemma NotedOneMore(target: Iri, dist: map<Iri, nat>, outputs: seq<Iri>, k: nat, far: nat)
    requires k < |outputs| && NotedUpTo(target, dist, outputs, k, far) && outputs[k] != target && outputs[k] !in dist
    ensures NotedUpTo(target, dist[outputs[k] := far], outputs, k + 1, far)
  {}

  lemma PushAdvances(
    queue: seq<Entry>, visited: set<Iri>, dist: map<Iri, nat>, queue': seq<Entry>, visited': set<Iri>, dist': map<Iri, nat>,
    entry: Entry, n: nat)
    requires Advances(queue, visited, dist, queue', visited', dist') && dist'.Keys == visited' && entry.at !in visited'
    ensures Advances(queue, visited, dist, queue' + [entry], visited' + {entry.at}, dist'[entry.at := n])
  {
    assert (queue' + [entry])[|queue'|].at == entry.at;
    forall x | InQueue(queue', x) ensures InQueue(queue' + [entry], x) {
      var i :| 0 <= i < |queue'| && queue'[i].at == x;
      assert (queue' + [entry])[i].at == x;
    }
  }

  /** The innermost loop, over the outputs of an admitted capacity. */
  method NoteOutputs(b: Bfs, e: Entry, c: Iri, queue: seq<Entry>, visited: set<Iri>, ghost dist: map<Iri, nat>)
    returns (r: Sweep, ghost dist': map<Iri, nat>)
    requires Frontier(b, visited, dist, |e.steps| + 1) && EntryFits(b, visited, e)
    requires c in b.cat.Consumers(e.at) && !b.cat.Refused(c)
    requires forall d | d in b.cat.Inputs(c) :: d in Blackboard(b.starts, e.steps, |e.steps|)
    ensures r == b.Note(e, c, 0, queue, visited)
    ensures match r
      case Hit(route) => IsShortRoute(b, route, |e.steps| + 1)
      case Swept(queue', visited') => Noting(b, e, c, queue, visited, dist, queue', visited', dist', |b.cat.Outputs(c)|)
  {
    dist' := dist;
    var queue', visited' := queue, visited;
    var outputs := b.cat.Outputs(c);
    for k := 0 to |outputs|
      invariant Noting(b, e, c, queue, visited, dist, queue', visited', dist', k)
      invariant b.Note(e, c, 0, queue, visited) == b.Note(e, c, k, queue', visited')
    {
      var o := outputs[k];
      if o == b.target {
        NewStepIsLinear(b, visited, e, c, o);
        return Hit(Pipeline(b.starts, b.target, e.steps + [StepOf(b.cat, c)], EdgesWith(e))), dist';
      }
      if o !in visited' {
        NewStepIsLinear(b, visited, e, c, o);
        PushKeeps(b, e, c, queue, visited, dist, queue', visited', dist', k);
        visited', queue', dist' := visited' + {o}, queue' + [Next(b.cat, e, c, o)], dist'[o := |e.steps| + 1];
      }
    }
    r := Swept(queue', visited');
  }

  /** Once all outputs of the step are noted, the entries that carry it are as sound as those before them. */
  lemma PushedFits(
    b: Bfs, queue: seq<Entry>, visited: set<Iri>, dist: map<Iri, nat>,
    queue': seq<Entry>, visited': set<Iri>, dist': map<Iri, nat>, e: Entry, c: Iri)
    requires QueueFits(b, visited, dist, queue, |e.steps|) && |e.steps| < b.maxDepth
    requires EntryFits(b, visited, e)
    requires Noting(b, e, c, queue, visited, dist, queue', visited', dist', |b.cat.Outputs(c)|)
    ensures QueueFits(b, visited', dist', queue', |e.steps|)
  {
    forall k | 0 <= k < |queue'| ensures EntryFits(b, visited', queue'[k]) {
      if k < |queue| {
        EntryStillFits(b, visited, visited', queue[k]);
      } else {
        PushedEntryFits(b, queue, visited, dist, queue', visited', dist', e, c, k);
      }
    }
  }

  lemma PushedEntryFits(
    b: Bfs, queue: seq<Entry>, visited: set<Iri>, dist: map<Iri, nat>,
    queue': seq<Entry>, visited': set<Iri>, dist': map<Iri, nat>, e: Entry, c: Iri, k: nat)
    requires EntryFits(b, visited, e) && |queue| <= k < |queue'|
    requires Noting(b, e, c, queue, visited, dist, queue', visited', dist', |b.cat.Outputs(c)|)
    ensures EntryFits(b, visited', queue'[k])
  {
    EntryStillFits(b, visited, visited', e);
    var entry := queue'[k];
    forall i | 0 <= i < |entry.steps| ensures OutputsVisited(b.target, visited', entry.steps[i]) {
      if i < |e.steps| { assert OutputsVisited(b.target, visited', e.steps[i]); }
    }
  }

  lemma ArrivedIsOnBlackboard(starts: set<Iri>, steps: seq<DagStep>, d: Iri)
    requires Arrived(starts, steps, d)
    ensures d in Blackboard(starts, steps, |steps|)
  {
    BlackboardHolds(starts, steps, |steps|, d);
  }

  /** A capacity for which the DataState arrived at suffices is not passed over. */
  lemma SufficientIsTaken(b: Bfs, visited: set<Iri>, e: Entry, c: Iri)
    requires EntryFits(b, visited, e) && Suffices(b.cat, b.starts, e.at, c)
    ensures !b.Passes(e, c)
  {
    var missing := UnavailableInputs(b.cat.Inputs(c), Blackboard(b.starts, e.steps, |e.steps|));
    assert missing != [] ==> missing[0] in missing;
    ArrivedIsOnBlackboard(b.starts, e.steps, e.at);
    forall d | d in b.cat.Inputs(c) ensures d in Blackboard(b.starts, e.steps, |e.steps|) {
      BlackboardHolds(b.starts, e.steps, |e.steps|, d);
    }
  }

  ghost predicate Noted(b: Bfs, dist: map<Iri, nat>, x: Iri, c: Iri, n: nat) {
    Suffices(b.cat, b.starts, x, c) ==> NotedUpTo(b.target, dist, b.cat.Outputs(c), |b.cat.Outputs(c)|, n + 1)
  }

  /** One consumer of the DataState arrived at: passed over, or each of its outputs noted. */
  method Take(b: Bfs, e: Entry, c: Iri, queue: seq<Entry>, visited: set<Iri>, ghost dist: map<Iri, nat>)
    returns (r: Sweep, ghost dist': map<Iri, nat>)
    requires Frontier(b, visited, dist, |e.steps| + 1) && EntryFits(b, visited, e)
    requires QueueFits(b, visited, dist, queue, |e.steps|) && |e.steps| < b.maxDepth
    requires c in b.cat.Consumers(e.at)
    ensures r == b.Take(e, c, queue, visited)
    ensures match r
      case Hit(route) => IsShortRoute(b, route, |e.steps| + 1)
      case Swept(queue', visited') =>
        && Frontier(b, visited', dist', |e.steps| + 1) && Advances(queue, visited, dist, queue', visited', dist')
        && QueueFits(b, visited', dist', queue', |e.steps|) && Noted(b, dist', e.at, c, |e.steps|)
  {
    dist' := dist;
    if b.cat.Refused(c) { return Swept(queue, visited), dist; }
    if UnavailableInputs(b.cat.Inputs(c), Blackboard(b.starts, e.steps, |e.steps|)) != [] {
      if Suffices(b.cat, b.starts, e.at, c) { SufficientIsTaken(b, visited, e, c); }
      return Swept(queue, visited), dist;
    }
    r, dist' := NoteOutputs(b, e, c, queue, visited, dist);
    if r.Swept? { PushedFits(b, queue, visited, dist, r.queue, r.visited, dist', e, c); }
  }

  lemma AdvancesTransitive(
    q0: seq<Entry>, v0: set<Iri>, d0: map<Iri, nat>, q1: seq<Entry>, v1: set<Iri>, d1: map<Iri, nat>,
    q2: seq<Entry>, v2: set<Iri>, d2: map<Iri, nat>)
    requires Advances(q0, v0, d0, q1, v1, d1) && Advances(q1, v1, d1, q2, v2, d2)
    ensures Advances(q0, v0, d0, q2, v2, d2)
  {
    forall x | InQueue(q1, x) ensures InQueue(q2, x) {
      var k :| 0 <= k < |q1| && q1[k].at == x;
      assert q2[k].at == x;
    }
  }

  lemma AdvancesSettled(
    b: Bfs, queue: seq<Entry>, visited: set<Iri>, dist: map<Iri, nat>,
    queue': seq<Entry>, visited': set<Iri>, dist': map<Iri, nat>, current: set<Iri>)
    requires Advances(queue, visited, dist, queue', visited', dist') && Settled(b, dist, queue, current)
    ensures Settled(b, dist', queue', current)
  {
    forall x | InQueue(queue, x) ensures InQueue(queue', x) {
      var k :| 0 <= k < |queue| && queue[k].at == x;
      assert queue'[k].at == x;
    }
    forall x | x in dist' && dist'[x] < b.maxDepth && x !in current && !InQueue(queue', x) ensures Expanded(b, dist', x) {
      assert Expanded(b, dist, x);
    }
  }

  /** The front of the queue leaves it and becomes the DataState at hand. */
  lemma PopSettles(b: Bfs, dist: map<Iri, nat>, queue: seq<Entry>)
    requires queue != [] && Settled(b, dist, queue, {})
    ensures Settled(b, dist, queue[1..], {queue[0].at})
  {
    forall x | InQueue(queue, x) && x != queue[0].at ensures InQueue(queue[1..], x) {
      var k :| 0 <= k < |queue| && queue[k].at == x;
      assert queue[1..][k - 1].at == x;
    }
  }

  // ---- the consumers of one DataState ----

  ghost predicate AllNoted(b: Bfs, dist: map<Iri, nat>, x: Iri, cs: seq<Iri>, k: nat, n: nat)
    requires k <= |cs|
  {
    forall j | 0 <= j < k :: Noted(b, dist, x, cs[j], n)
  }

  lemma AllNotedStays(b: Bfs, dist: map<Iri, nat>, dist': map<Iri, nat>, x: Iri, cs: seq<Iri>, k: nat, n: nat)
    requires k < |cs| && AllNoted(b, dist, x, cs, k, n) && Noted(b, dist', x, cs[k], n)
    requires forall x | x in dist :: x in dist' && dist'[x] == dist[x]
    ensures AllNoted(b, dist', x, cs, k + 1, n)
  {
    forall j | 0 <= j < k ensures Noted(b, dist', x, cs[j], n) {
      if Suffices(b.cat, b.starts, x, cs[j]) {
        NotedStays(b.target, dist, dist', b.cat.Outputs(cs[j]), |b.cat.Outputs(cs[j])|, n + 1);
      }
    }
  }

  /** All consumers of the one DataState noted: it is expanded. */
  lemma ConsumersNoted(b: Bfs, dist: map<Iri, nat>, x: Iri)
    requires x in dist && AllNoted(b, dist, x, b.cat.Consumers(x), |b.cat.Consumers(x)|, dist[x])
    ensures Expanded(b, dist, x)
  {
    forall o | Hops(b.cat, b.starts, x, o) ensures o != b.target && o in dist && dist[o] <= dist[x] + 1 {
      var c :| Suffices(b.cat, b.starts, x, c) && o in b.cat.Outputs(c);
      assert c in b.cat.Consumers(x);
      var j :| 0 <= j < |b.cat.Consumers(x)| && b.cat.Consumers(x)[j] == c;
      assert Noted(b, dist, x, b.cat.Consumers(x)[j], dist[x]);
    }
  }

  lemma EntryStillFits(b: Bfs, visited: set<Iri>, visited': set<Iri>, e: Entry)
    requires EntryFits(b, visited, e) && visited <= visited'
    ensures EntryFits(b, visited', e)
  {
    forall i | 0 <= i < |e.steps| ensures OutputsVisited(b.target, visited', e.steps[i]) {
      assert OutputsVisited(b.target, visited, e.steps[i]);
    }
  }

  lemma NearerIsExpanded(b: Bfs, visited: set<Iri>, dist: map<Iri, nat>, queue: seq<Entry>, level: nat, at: Iri)
    requires QueueFits(b, visited, dist, queue, level) && level < b.maxDepth
    requires Settled(b, dist, queue, {at}) && at in dist && dist[at] == level
    ensures forall x | x in dist && dist[x] < level :: Expanded(b, dist, x)
  {}

  /** Where the loop over the consumers stands. */
  ghost predicate Expanding(
    b: Bfs, e: Entry, queue: seq<Entry>, visited: set<Iri>, dist: map<Iri, nat>,
    queue': seq<Entry>, visited': set<Iri>, dist': map<Iri, nat>, k: nat)
  {
    && Frontier(b, visited', dist', |e.steps| + 1) && Advances(queue, visited, dist, queue', visited', dist')
    && QueueFits(b, visited', dist', queue', |e.steps|)
    && k <= |b.cat.Consumers(e.at)| && AllNoted(b, dist', e.at, b.cat.Consumers(e.at), k, |e.steps|)
  }

  /** A route found at this level is no longer than any chain: everything nearer is expanded. */
  lemma FoundIsShortest(
    b: Bfs, e: Entry, queue: seq<Entry>, visited: set<Iri>, dist: map<Iri, nat>,
    queue': seq<Entry>, visited': set<Iri>, dist': map<Iri, nat>, k: nat)
    requires Expanding(b, e, queue, visited, dist, queue', visited', dist', k) && |e.steps| < b.maxDepth
    requires Settled(b, dist, queue, {e.at}) && e.at in dist && dist[e.at] == |e.steps|
    ensures forall p | HopChain(b.cat, b.starts, b.target, p) :: |e.steps| + 1 <= |p| - 1
  {
    AdvancesSettled(b, queue, visited, dist, queue', visited', dist', {e.at});
    NearerIsExpanded(b, visited', dist', queue', |e.steps|, e.at);
    ChainsAreLonger(b, visited', dist', |e.steps| + 1, |e.steps|);
  }

  /** With all consumers gone through, the DataState popped is expanded too. */
  lemma ExpandedSettles(
    b: Bfs, e: Entry, queue: seq<Entry>, visited: set<Iri>, dist: map<Iri, nat>,
    queue': seq<Entry>, visited': set<Iri>, dist': map<Iri, nat>)
    requires Expanding(b, e, queue, visited, dist, queue', visited', dist', |b.cat.Consumers(e.at)|)
    requires Settled(b, dist, queue, {e.at}) && e.at in dist && dist[e.at] == |e.steps|
    ensures Settled(b, dist', queue', {})
  {
    AdvancesSettled(b, queue, visited, dist, queue', visited', dist', {e.at});
    ConsumersNoted(b, dist', e.at);
  }

  /** The inner loop over the consumers of the DataState popped. */
  method Expand(b: Bfs, e: Entry, queue: seq<Entry>, visited: set<Iri>, ghost dist: map<Iri, nat>)
    returns (r: Sweep, ghost dist': map<Iri, nat>)
    requires Frontier(b, visited, dist, |e.steps| + 1) && EntryFits(b, visited, e)
    requires QueueFits(b, visited, dist, queue, |e.steps|) && |e.steps| < b.maxDepth
    requires e.at in dist && dist[e.at] == |e.steps| && Settled(b, dist, queue, {e.at})
    ensures r == b.Expand(e, 0, queue, visited)
    ensures match r
      case Hit(route) =>
        IsShortRoute(b, route, |e.steps| + 1) && forall p | HopChain(b.cat, b.starts, b.target, p) :: |e.steps| + 1 <= |p| - 1
      case Swept(queue', visited') =>
        && Frontier(b, visited', dist', |e.steps| + 1) && QueueFits(b, visited', dist', queue', |e.steps|)
        && Settled(b, dist', queue', {})
  {
    dist' := dist;
    var queue', visited' := queue, visited;
    var consumers := b.cat.Consumers(e.at);
    for k := 0 to |consumers|
      invariant Expanding(b, e, queue, visited, dist, queue', visited', dist', k)
      invariant b.Expand(e, 0, queue, visited) == b.Expand(e, k, queue', visited')
    {
      EntryStillFits(b, visited, visited', e);
      ghost var q, v, d := queue', visited', dist';
      r, dist' := Take(b, e, consumers[k], queue', visited', dist');
      if r.Hit? {
        FoundIsShortest(b, e, queue, visited, dist, q, v, d, k);
        return;
      }
      queue', visited' := r.queue, r.visited;
      AdvancesTransitive(queue, visited, dist, q, v, d, queue', visited', dist');
      AllNotedStays(b, d, dist', e.at, consumers, k, |e.steps|);
    }
    ExpandedSettles(b, e, queue, visited, dist, queue', visited', dist');
    r := Swept(queue', visited');
  }

  // ---- the whole walk ----

  /** The DataStates a linear route passes, with the target at its end. */
  lemma LinearIsChain(cat: Catalog, starts: set<Iri>, target: Iri, p: Pipeline) returns (chain: seq<Iri>)
    requires p.steps != [] && Linear(cat, starts, p.steps, p.edges) && Arrived(starts, p.steps, target)
    ensures ChainTo(cat, starts, target, chain) && |chain| - 1 == |p.steps|
  {
    var vias := seq(|p.edges|, i requires 0 <= i < |p.edges| => p.edges[i].datastate);
    chain := vias + [target];
    forall i | 0 <= i < |chain| - 1 ensures StepsTo(cat, chain[i], chain[i + 1]) {
      assert LinkFits(cat, starts, p.steps, p.edges, i);
      if i + 1 < |p.steps| { assert LinkFits(cat, starts, p.steps, p.edges, i + 1); }
      assert chain[i] in cat.Inputs(p.steps[i].capacity) && chain[i + 1] in cat.Outputs(p.steps[i].capacity);
    }
    assert LinkFits(cat, starts, p.steps, p.edges, 0);
  }

  ghost predicate WalkFits(b: Bfs, visited: set<Iri>, dist: map<Iri, nat>, queue: seq<Entry>, level: nat) {
    && Frontier(b, visited, dist, level + 1) && QueueFits(b, visited, dist, queue, level) && Settled(b, dist, queue, {})
  }

  /** What `BFSFinder.find` promises of its answer on every catalog. A route found is linear, repeats no capacity, keeps to
      `max_depth`, runs with every declared input on the blackboard, and is no longer than any chain of self-sufficient
      hops; none is found only if every such chain is longer than `max_depth`. */
  ghost predicate Answers(b: Bfs, v: FindVerdict) {
    match v
    case NoRoute(reason, missing) =>
      && reason == BfsExhausted && missing == map[] && b.target !in b.starts
      && forall p | HopChain(b.cat, b.starts, b.target, p) :: b.maxDepth < |p| - 1
    case Route(r) =>
      && (if b.target in b.starts then r == Pipeline(b.starts, b.target, [], [])
          else IsShortRoute(b, r, |r.steps|) && |r.steps| <= b.maxDepth)
      && (exists p :: ChainTo(b.cat, b.starts, b.target, p) && |p| - 1 == |r.steps|)
      && forall p | HopChain(b.cat, b.starts, b.target, p) :: |r.steps| <= |p| - 1
  }

  /** `BFSFinder.find`. */
  method Find(cat: Catalog, startList: seq<Iri>, target: Iri, maxDepth: int) returns (v: FindVerdict)
    ensures v == Bfs(cat, SeqSet(startList), target, maxDepth).Find(startList)
    ensures Answers(Bfs(cat, SeqSet(startList), target, maxDepth), v)
  {
    var b := Bfs(cat, SeqSet(startList), target, maxDepth);
    if target in b.starts {
      v := Route(Pipeline(b.starts, target, [], []));
      assert ChainTo(cat, b.starts, target, [target]);
      return;
    }
    var queue, visited := Seed(startList);
    InitialQueue(b, startList, queue);
    v := Walk(b, queue, visited, map d | d in b.starts :: 0);
  }

  /** The outer loop, over the queue. */
  method Walk(b: Bfs, queue0: seq<Entry>, visited0: set<Iri>, ghost dist0: map<Iri, nat>) returns (v: FindVerdict)
    requires b.target !in b.starts && WalkFits(b, visited0, dist0, queue0, 0) && visited0 <= b.starts + b.cat.Universe()
    ensures v == b.Walk(queue0, visited0) && Answers(b, v)
  {
    var queue, visited := queue0, visited0;
    ghost var dist := dist0;
    ghost var level: nat := 0;
    while queue != []
      invariant WalkFits(b, visited, dist, queue, level) && visited <= b.starts + b.cat.Universe()
      invariant b.Walk(queue0, visited0) == b.Walk(queue, visited)
      decreases b.starts + b.cat.Universe() - visited, |queue|
    {
      var e := queue[0];
      PopFits(b, visited, dist, queue, level);
      level := |e.steps|;
      if |e.steps| >= b.maxDepth {
        queue := queue[1..];
        continue;
      }
      var r;
      r, dist := Expand(b, e, queue[1..], visited, dist);
      if r.Hit? {
        FoundAnswers(b, r.route, level);
        return Route(r.route);
      }
      if r.visited != visited { FewerUnvisited(b.starts + b.cat.Universe(), visited, r.visited); }
      queue, visited := r.queue, r.visited;
    }
    v := NoRoute(BfsExhausted, map[]);
    ChainsAreLonger(b, visited, dist, level + 1, b.maxDepth);
  }

  lemma FewerUnvisited(all: set<Iri>, visited: set<Iri>, more: set<Iri>)
    requires visited <= more <= all && visited != more
    ensures all - more < all - visited
  {
    var x :| x in more && x !in visited;
    assert x in all - visited && x !in all - more;
  }

  lemma FoundAnswers(b: Bfs, r: Pipeline, level: nat)
    requires b.target !in b.starts && IsShortRoute(b, r, level + 1) && level < b.maxDepth
    requires forall p | HopChain(b.cat, b.starts, b.target, p) :: level + 1 <= |p| - 1
    ensures Answers(b, Route(r))
  {
    var chain := LinearIsChain(b.cat, b.starts, b.target, r);
  }

  /** The starts, queued and visited. */
  method Seed(startList: seq<Iri>) returns (queue: seq<Entry>, visited: set<Iri>)
    ensures visited == SeqSet(startList)
    ensures queue == seq(|startList|, i requires 0 <= i < |startList| => Entry(startList[i], [], [], START))
  {
    queue, visited := [], {};
    for k := 0 to |startList|
      invariant |queue| == k && visited == SeqSet(startList[..k])
      invariant forall j | 0 <= j < k :: queue[j] == Entry(startList[j], [], [], START)
    {
      queue, visited := queue + [Entry(startList[k], [], [], START)], visited + {startList[k]};
      TakeOneMore(startList, k);
    }
    assert startList[..|startList|] == startList;
  }

  lemma InitialQueue(b: Bfs, startList: seq<Iri>, queue: seq<Entry>)
    requires b.starts == SeqSet(startList) && b.target !in startList && |queue| == |startList|
    requires forall j | 0 <= j < |queue| :: queue[j] == Entry(startList[j], [], [], START)
    ensures WalkFits(b, b.starts, map d | d in b.starts :: 0, queue, 0)
  {
    forall x | x in startList ensures InQueue(queue, x) {
      var k :| 0 <= k < |startList| && startList[k] == x;
      assert queue[k].at == x;
    }
    forall k | 0 <= k < |queue| ensures EntryFits(b, b.starts, queue[k]) {}
  }

  lemma PopFits(b: Bfs, visited: set<Iri>, dist: map<Iri, nat>, queue: seq<Entry>, level: nat)
    requires WalkFits(b, visited, dist, queue, level) && queue != []
    ensures EntryFits(b, visited, queue[0])
    ensures queue[0].at in dist && dist[queue[0].at] == |queue[0].steps|
    ensures Frontier(b, visited, dist, |queue[0].steps| + 1)
    ensures QueueFits(b, visited, dist, queue[1..], |queue[0].steps|)
    ensures Settled(b, dist, queue[1..], {queue[0].at})
    ensures |queue[0].steps| >= b.maxDepth ==> WalkFits(b, visited, dist, queue[1..], |queue[0].steps|)
  {
    PopSettles(b, dist, queue);
  }

  // ---- among everything that runs ----

  /** A sequence of capacities that runs in order from the starts, the input check finding nothing missing, and makes the
      target. What a step does without, be it all of its inputs, it does without. */
  ghost predicate Makes(cat: Catalog, starts: set<Iri>, target: Iri, steps: seq<DagStep>) {
    && target in Blackboard(starts, steps, |steps|)
    && forall i | 0 <= i < |steps| ::
         IsStepOf(cat, steps[i]) && InputsPresent(cat, steps[i].capacity, Blackboard(starts, steps, i))
  }

  /** It has an input, and cannot run but with all of them there; of these at most one is not a start. */
  ghost predicate FedByOne(cat: Catalog, starts: set<Iri>, c: Iri) {
    && cat.Inputs(c) != []
    && match cat.GroupOf(c)
       case AllRequired => forall d, e | d in cat.Inputs(c) && e in cat.Inputs(c) && d !in starts && e !in starts :: d == e
       case AnyOf => (forall d | d in cat.Inputs(c) :: d in starts) || !Chooses(cat, c)
       case Fold => forall d | d in cat.Inputs(c) :: d in starts
  }

  ghost predicate EachFedByOne(cat: Catalog, starts: set<Iri>) {
    forall c | c in cat.caps && !cat.Refused(c) :: FedByOne(cat, starts, c)
  }

  /** When such a capacity can run, one of the DataStates there suffices for it. */
  lemma SufficientInput(cat: Catalog, starts: set<Iri>, c: Iri, held: set<Iri>) returns (x: Iri)
    requires c in cat.caps && !cat.Refused(c) && FedByOne(cat, starts, c) && starts <= held && InputsPresent(cat, c, held)
    ensures x in held && Suffices(cat, starts, x, c)
  {
    if d :| d in cat.Inputs(c) && d !in starts {
      x := d;
    } else {
      x := cat.Inputs(c)[0];
    }
  }

  lemma StartsOnBlackboard(starts: set<Iri>, steps: seq<DagStep>, i: nat)
    requires i <= |steps|
    ensures starts <= Blackboard(starts, steps, i)
  {
    forall d | d in starts ensures d in Blackboard(starts, steps, i) { BlackboardHolds(starts, steps, i, d); }
  }

  /** Then whatever a running sequence has made after `i` steps ends a chain of at most `i` self-sufficient hops. */
  lemma {:induction false} RunIsChain(cat: Catalog, starts: set<Iri>, target: Iri, steps: seq<DagStep>, i: nat, d: Iri)
    returns (p: seq<Iri>)
    requires EachFedByOne(cat, starts) && Makes(cat, starts, target, steps) && i <= |steps| && d in Blackboard(starts, steps, i)
    ensures HopChain(cat, starts, d, p) && |p| - 1 <= i
    decreases i
  {
    if d in starts { return [d]; }
    BlackboardHolds(starts, steps, i, d);
    var j :| 0 <= j < i && d in steps[j].outputs;
    StartsOnBlackboard(starts, steps, j);
    var x := SufficientInput(cat, starts, steps[j].capacity, Blackboard(starts, steps, j));
    var q := RunIsChain(cat, starts, target, steps, j, x);
    p := q + [d];
    forall k | 0 <= k < |p| - 1 ensures Hops(cat, starts, p[k], p[k + 1]) {
      if k < |q| - 1 { assert Hops(cat, starts, q[k], q[k + 1]); }
    }
  }

  /** A linear route is one that runs. */
  lemma LinearMakes(b: Bfs, r: Pipeline)
    requires IsShortRoute(b, r, |r.steps|)
    ensures Makes(b.cat, b.starts, b.target, r.steps)
  {
    ArrivedIsOnBlackboard(b.starts, r.steps, b.target);
    forall i | 0 <= i < |r.steps|
      ensures IsStepOf(b.cat, r.steps[i]) && InputsPresent(b.cat, r.steps[i].capacity, Blackboard(b.starts, r.steps, i))
    {
      assert LinkFits(b.cat, b.starts, r.steps, r.edges, i);
    }
  }

  /** When every capacity has an input, at most one from outside the starts, and cannot run without any of them,
      breadth-first search is complete and shortest among all sequences that run, linear or not: it finds a route exactly
      when one within the depth makes the target, and none of any kind is shorter. */
  lemma ShortestOfAllThatRun(b: Bfs, v: FindVerdict)
    requires EachFedByOne(b.cat, b.starts) && Answers(b, v)
    ensures v.Route? <==> exists steps :: Makes(b.cat, b.starts, b.target, steps) && (steps == [] || |steps| <= b.maxDepth)
    ensures v.Route? ==> forall steps | Makes(b.cat, b.starts, b.target, steps) :: |v.pipeline.steps| <= |steps|
  {
    forall steps | Makes(b.cat, b.starts, b.target, steps)
      ensures exists p :: HopChain(b.cat, b.starts, b.target, p) && |p| - 1 <= |steps|
    {
      var p := RunIsChain(b.cat, b.starts, b.target, steps, |steps|, b.target);
    }
    if v.Route? {
      if b.target !in b.starts { LinearMakes(b, v.pipeline); }
      assert Makes(b.cat, b.starts, b.target, v.pipeline.steps);
    }
  }
}
