/** The breadth-first search as a log: what it enqueued, from where and in which order, and what it can have missed. */
module BfsOrder {
  import opened Identifiers
  import opened Folding
  import opened Catalogs
  import opened Pipelines
  import opened Admission
  import opened BfsSearch
  import opened BfsFinder

  /** Where an entry of the queue came from: the entry it was reached from, the consumer of what that one arrived at, and the
      output of that consumer. */
  datatype Key = Key(src: nat, nth: nat, pos: nat)

  predicate Before(a: Key, b: Key) {
    a.src < b.src || (a.src == b.src && (a.nth < b.nth || (a.nth == b.nth && a.pos < b.pos)))
  }

  /** Nothing refuses the capacity, and all of its inputs are on the path. */
  ghost predicate Fed(b: Bfs, e: Entry, c: Iri) {
    !b.cat.Refused(c) && forall d | d in b.cat.Inputs(c) :: d in Blackboard(b.starts, e.steps, |e.steps|)
  }

  /** Entry `k.src` is short enough to go on from, and has that consumer, which is fed and has that output. */
  ghost predicate LeadsOut(b: Bfs, log: seq<Entry>, k: Key) {
    && k.src < |log| && |log[k.src].steps| < b.maxDepth && k.nth < |b.cat.Consumers(log[k.src].at)|
    && Fed(b, log[k.src], Taken(b, log, k)) && k.pos < |b.cat.Outputs(Taken(b, log, k))|
  }

  function Taken(b: Bfs, log: seq<Entry>, k: Key): Iri
    requires k.src < |log| && k.nth < |b.cat.Consumers(log[k.src].at)|
  {
    b.cat.Consumers(log[k.src].at)[k.nth]
  }

  ghost function OutputAt(b: Bfs, log: seq<Entry>, k: Key): Iri
    requires LeadsOut(b, log, k)
  {
    b.cat.Outputs(Taken(b, log, k))[k.pos]
  }

  /** The route of entry `k.src`, with that consumer as one more step, wired from where the entry arrived. */
  ghost predicate Extends(b: Bfs, log: seq<Entry>, k: Key, steps: seq<DagStep>, edges: seq<DagEdge>)
    requires LeadsOut(b, log, k)
  {
    var e, c := log[k.src], Taken(b, log, k);
    && steps == e.steps + [DagStep(c, b.cat.Inputs(c), b.cat.Outputs(c))]
    && edges == e.edges + [DagEdge(e.producer, |e.steps|, e.at)]
  }

  ghost predicate MadeBy(b: Bfs, log: seq<Entry>, i: nat, k: Key)
    requires i < |log|
  {
    && k.src < i && LeadsOut(b, log, k) && log[i].at == OutputAt(b, log, k)
    && Extends(b, log, k, log[i].steps, log[i].edges) && log[i].producer == |log[k.src].steps|
  }

  ghost predicate StartsFirst(startList: seq<Iri>, log: seq<Entry>) {
    |startList| <= |log| && forall i | 0 <= i < |startList| :: log[i] == Entry(startList[i], [], [], START)
  }

  ghost predicate EachMade(b: Bfs, startList: seq<Iri>, log: seq<Entry>, keys: seq<Key>)
    requires |log| == |keys|
  {
    forall i | |startList| <= i < |log| :: MadeBy(b, log, i, keys[i])
  }

  ghost predicate NoneTwice(startList: seq<Iri>, log: seq<Entry>) {
    forall i, j | |startList| <= i < |log| && 0 <= j < i :: log[j].at != log[i].at
  }

  ghost predicate InOrder(startList: seq<Iri>, keys: seq<Key>) {
    forall i, j | |startList| <= i < j < |keys| :: Before(keys[i], keys[j])
  }

  /** All entries ever enqueued: the starts, and then each DataState once, from the first that leads to it. */
  ghost predicate IsLog(b: Bfs, startList: seq<Iri>, log: seq<Entry>, keys: seq<Key>) {
    && |log| == |keys| && StartsFirst(startList, log) && EachMade(b, startList, log, keys)
    && NoneTwice(startList, log) && InOrder(startList, keys)
  }

  /** `o` is a start, or was enqueued from `k` at the latest. */
  ghost predicate SeenBy(startList: seq<Iri>, log: seq<Entry>, keys: seq<Key>, o: Iri, k: Key)
    requires |log| == |keys|
  {
    exists i :: 0 <= i < |log| && log[i].at == o && (i < |startList| || !Before(k, keys[i]))
  }

  /** All that leads anywhere and comes before `k` leads to something seen, and not to the target. */
  ghost predicate Covered(b: Bfs, startList: seq<Iri>, log: seq<Entry>, keys: seq<Key>, k: Key)
    requires |log| == |keys|
  {
    forall l | Before(l, k) && LeadsOut(b, log, l) ::
      OutputAt(b, log, l) != b.target && SeenBy(startList, log, keys, OutputAt(b, log, l), l)
  }

  /** The search found this: the target is the first unseen of all that entries lead to, in their order. */
  ghost predicate FoundAt(b: Bfs, startList: seq<Iri>, log: seq<Entry>, keys: seq<Key>, k: Key, r: Pipeline) {
    && IsLog(b, startList, log, keys) && Covered(b, startList, log, keys, k)
    && LeadsOut(b, log, k) && OutputAt(b, log, k) == b.target
    && r.starts == b.starts && r.target == b.target && Extends(b, log, k, r.steps, r.edges)
  }

  /** All that entries lead to has been seen, and the target is not among it. */
  ghost predicate Complete(b: Bfs, startList: seq<Iri>, log: seq<Entry>, keys: seq<Key>) {
    IsLog(b, startList, log, keys) && Covered(b, startList, log, keys, Key(|log|, 0, 0))
  }

  // ---- the walk keeps the log ----

  function Ats(log: seq<Entry>): set<Iri> { set e | e in log :: e.at }

  /** Where the walk stands: the log so far, how much of it has left the queue, and the key to look at next. */
  datatype Stand = Stand(log: seq<Entry>, keys: seq<Key>, popped: nat, queue: seq<Entry>, visited: set<Iri>, at: Key)
  {
    ghost predicate Fits(b: Bfs, startList: seq<Iri>) {
      && IsLog(b, startList, log, keys) && Covered(b, startList, log, keys, at)
      && popped <= |log| && queue == log[popped..] && visited == Ats(log)
      && forall i | |startList| <= i < |log| :: Before(keys[i], at)
    }

    ghost predicate Running(b: Bfs, startList: seq<Iri>) {
      forall key {:trigger Asked(key)} :: Asked(key) && key == RUNNING ==> Fits(b, startList)
    }

    /** At a consumer of the entry last popped. */
    ghost predicate AtConsumer(b: Bfs) {
      && at.src < |log| && popped == at.src + 1 && |log[at.src].steps| < b.maxDepth
      && at.nth < |b.cat.Consumers(log[at.src].at)|
    }

    function Consumer(b: Bfs): Iri
      requires at.src < |log| && at.nth < |b.cat.Consumers(log[at.src].at)|
    {
      Taken(b, log, at)
    }
  }

  const RUNNING := 31

  lemma StandSays(b: Bfs, startList: seq<Iri>, st: Stand)
    requires st.Running(b, startList)
    ensures st.popped <= |st.log| && st.queue == st.log[st.popped..] && st.visited == Ats(st.log)
  {
    assert Asked(RUNNING);
  }

  lemma FedIsTaken(b: Bfs, e: Entry, c: Iri)
    ensures b.Passes(e, c) <==> !Fed(b, e, c)
  {}

  lemma FoundHere(b: Bfs, startList: seq<Iri>, st: Stand)
    requires st.Running(b, startList) && LeadsOut(b, st.log, st.at) && OutputAt(b, st.log, st.at) == b.target
    ensures var e, c := st.log[st.at.src], Taken(b, st.log, st.at);
      FoundAt(b, startList, st.log, st.keys, st.at, Pipeline(b.starts, b.target, e.steps + [StepOf(b.cat, c)], EdgesWith(e)))
  {
    assert Asked(RUNNING);
  }

  /** Nothing leads out between two keys. */
  lemma Skip(b: Bfs, startList: seq<Iri>, st: Stand, next: Key)
    requires st.Running(b, startList) && Before(st.at, next) && forall l | !Before(l, st.at) && Before(l, next) :: !LeadsOut(b, st.log, l)
    ensures st.(at := next).Running(b, startList)
  {
    if st.Fits(b, startList) { SkipCovers(b, startList, st.log, st.keys, st.at, next); }
    assert Asked(RUNNING);
  }

  lemma SkipCovers(b: Bfs, startList: seq<Iri>, log: seq<Entry>, keys: seq<Key>, k: Key, next: Key)
    requires |log| == |keys| && Covered(b, startList, log, keys, k) && Before(k, next)
    requires forall l | !Before(l, k) && Before(l, next) :: !LeadsOut(b, log, l)
    requires forall i | |startList| <= i < |log| :: Before(keys[i], k)
    ensures Covered(b, startList, log, keys, next) && forall i | |startList| <= i < |log| :: Before(keys[i], next)
  {}

  lemma NextConsumer(b: Bfs, startList: seq<Iri>, st: Stand)
    requires st.Running(b, startList) && st.AtConsumer(b)
    requires st.at.pos >= |b.cat.Outputs(st.Consumer(b))| || (st.at.pos == 0 && !Fed(b, st.log[st.at.src], st.Consumer(b)))
    ensures st.(at := Key(st.at.src, st.at.nth + 1, 0)).Running(b, startList)
  {
    var next := Key(st.at.src, st.at.nth + 1, 0);
    forall l | !Before(l, st.at) && Before(l, next) ensures !LeadsOut(b, st.log, l) {
      assert l.src == st.at.src && l.nth == st.at.nth && l.pos >= st.at.pos;
    }
    Skip(b, startList, st, next);
  }

  lemma NextEntry(b: Bfs, startList: seq<Iri>, st: Stand)
    requires st.Running(b, startList) && st.at.pos == 0 && st.at.src < |st.log|
    requires st.at.nth >= |b.cat.Consumers(st.log[st.at.src].at)| || (st.at.nth == 0 && |st.log[st.at.src].steps| >= b.maxDepth)
    ensures st.(at := Key(st.at.src + 1, 0, 0)).Running(b, startList)
  {
    Skip(b, startList, st, Key(st.at.src + 1, 0, 0));
  }

  function Further(k: Key): Key { Key(k.src, k.nth, k.pos + 1) }

  lemma SkipSeen(b: Bfs, startList: seq<Iri>, st: Stand)
    requires st.Running(b, startList) && LeadsOut(b, st.log, st.at)
    requires OutputAt(b, st.log, st.at) in st.visited && OutputAt(b, st.log, st.at) != b.target
    ensures st.(at := Further(st.at)).Running(b, startList)
  {
    if st.Fits(b, startList) { CoverSeen(b, startList, st.log, st.keys, st.at); }
    assert Asked(RUNNING);
  }

  lemma CoverSeen(b: Bfs, startList: seq<Iri>, log: seq<Entry>, keys: seq<Key>, k: Key)
    requires |log| == |keys| && Covered(b, startList, log, keys, k) && LeadsOut(b, log, k)
    requires OutputAt(b, log, k) in Ats(log) && OutputAt(b, log, k) != b.target
    requires forall i | |startList| <= i < |log| :: Before(keys[i], k)
    ensures Covered(b, startList, log, keys, Further(k)) && forall i | |startList| <= i < |log| :: Before(keys[i], Further(k))
  {
    var i :| 0 <= i < |log| && log[i].at == OutputAt(b, log, k);
    assert SeenBy(startList, log, keys, OutputAt(b, log, k), k);
    forall l | Before(l, Further(k)) && !Before(l, k) ensures l == k {}
  }

  /** The entry that an unseen output makes. */
  function NextAt(b: Bfs, st: Stand): Entry
    requires st.at.src < |st.log| && st.at.nth < |b.cat.Consumers(st.log[st.at.src].at)| && st.at.pos < |b.cat.Outputs(st.Consumer(b))|
  {
    Next(b.cat, st.log[st.at.src], st.Consumer(b), b.cat.Outputs(st.Consumer(b))[st.at.pos])
  }

  function Pushed(st: Stand, next: Entry): Stand {
    Stand(st.log + [next], st.keys + [st.at], st.popped, st.queue + [next], st.visited + {next.at}, Further(st.at))
  }

  lemma PushNew(b: Bfs, startList: seq<Iri>, st: Stand)
    requires st.Running(b, startList) && LeadsOut(b, st.log, st.at)
    requires NextAt(b, st).at !in st.visited && NextAt(b, st).at != b.target
    ensures Pushed(st, NextAt(b, st)).Running(b, startList)
  {
    if st.Fits(b, startList) { PushFits(b, startList, st, NextAt(b, st)); }
    assert Asked(RUNNING);
  }

  lemma PushFits(b: Bfs, startList: seq<Iri>, st: Stand, next: Entry)
    requires st.Fits(b, startList) && LeadsOut(b, st.log, st.at) && next == NextAt(b, st) && next.at !in st.visited && next.at != b.target
    ensures Pushed(st, next).Fits(b, startList)
  {
    PushIsLog(b, startList, st.log, st.keys, st.at, next);
    PushCovers(b, startList, st.log, st.keys, st.at, next);
    PushQueue(st.log, st.popped, next);
    KeysBefore(startList, st.keys, st.at);
  }

  lemma PushQueue(log: seq<Entry>, popped: nat, next: Entry)
    requires popped <= |log|
    ensures (log + [next])[popped..] == log[popped..] + [next] && Ats(log + [next]) == Ats(log) + {next.at}
  {
    assert forall e :: e in log + [next] <==> e in log || e == next;
  }

  lemma KeysBefore(startList: seq<Iri>, keys: seq<Key>, k: Key)
    requires forall i | |startList| <= i < |keys| :: Before(keys[i], k)
    ensures forall i | |startList| <= i < |keys + [k]| :: Before((keys + [k])[i], Further(k))
  {}

  lemma LeadsStays(b: Bfs, log: seq<Entry>, next: Entry, k: Key)
    requires k.src < |log|
    ensures LeadsOut(b, log + [next], k) <==> LeadsOut(b, log, k)
    ensures LeadsOut(b, log, k) ==> OutputAt(b, log + [next], k) == OutputAt(b, log, k)
    ensures LeadsOut(b, log, k) ==> forall steps, edges :: Extends(b, log + [next], k, steps, edges) <==> Extends(b, log, k, steps, edges)
  {}

  lemma PushIsLog(b: Bfs, startList: seq<Iri>, log: seq<Entry>, keys: seq<Key>, k: Key, next: Entry)
    requires IsLog(b, startList, log, keys) && LeadsOut(b, log, k) && next == Next(b.cat, log[k.src], Taken(b, log, k), OutputAt(b, log, k))
    requires next.at !in Ats(log) && forall i | |startList| <= i < |log| :: Before(keys[i], k)
    ensures IsLog(b, startList, log + [next], keys + [k])
  {
    PushMade(b, startList, log, keys, k, next);
    PushNotTwice(startList, log, next);
  }

  lemma PushMade(b: Bfs, startList: seq<Iri>, log: seq<Entry>, keys: seq<Key>, k: Key, next: Entry)
    requires |log| == |keys| && EachMade(b, startList, log, keys)
    requires LeadsOut(b, log, k) && next == Next(b.cat, log[k.src], Taken(b, log, k), OutputAt(b, log, k))
    ensures EachMade(b, startList, log + [next], keys + [k])
  {
    forall i | |startList| <= i < |log + [next]| ensures MadeBy(b, log + [next], i, (keys + [k])[i]) {
      if i < |log| { MadeStays(b, log, next, i, keys[i]); } else { NextIsMade(b, log, next, k); }
    }
  }

  lemma PushNotTwice(startList: seq<Iri>, log: seq<Entry>, next: Entry)
    requires NoneTwice(startList, log) && next.at !in Ats(log)
    ensures NoneTwice(startList, log + [next])
  {
    forall j | 0 <= j < |log| ensures log[j].at != next.at { assert log[j] in log; }
  }

  lemma MadeStays(b: Bfs, log: seq<Entry>, next: Entry, i: nat, k: Key)
    requires i < |log| && MadeBy(b, log, i, k)
    ensures MadeBy(b, log + [next], i, k)
  {
    LeadsStays(b, log, next, k);
  }

  lemma NextIsMade(b: Bfs, log: seq<Entry>, next: Entry, k: Key)
    requires LeadsOut(b, log, k) && next == Next(b.cat, log[k.src], Taken(b, log, k), OutputAt(b, log, k))
    ensures MadeBy(b, log + [next], |log|, k)
  {
    LeadsStays(b, log, next, k);
    assert Extends(b, log, k, next.steps, next.edges);
  }

  lemma PushCovers(b: Bfs, startList: seq<Iri>, log: seq<Entry>, keys: seq<Key>, k: Key, next: Entry)
    requires |log| == |keys| && Covered(b, startList, log, keys, k) && LeadsOut(b, log, k)
    requires next.at == OutputAt(b, log, k) && next.at != b.target
    ensures Covered(b, startList, log + [next], keys + [k], Further(k))
  {
    var log', keys' := log + [next], keys + [k];
    forall l | Before(l, Further(k)) && LeadsOut(b, log', l)
      ensures OutputAt(b, log', l) != b.target && SeenBy(startList, log', keys', OutputAt(b, log', l), l)
    {
      LeadsStays(b, log, next, l);
      if l == k {
        assert log'[|log|].at == next.at && keys'[|log|] == k;
      } else {
        assert Before(l, k);
        var i :| 0 <= i < |log| && log[i].at == OutputAt(b, log, l) && (i < |startList| || !Before(l, keys[i]));
        assert log'[i] == log[i] && keys'[i] == keys[i];
      }
    }
  }

  /** What a part of the walk comes to, against what the function answers: a route and its log, or the walk at the next key. */
  ghost predicate Arrives(b: Bfs, startList: seq<Iri>, from: Stand, r: Sweep, st: Stand, next: Key) {
    match r
    case Hit(route) => FoundAt(b, startList, st.log, st.keys, st.at, route)
    case Swept(queue, visited) =>
      st.Running(b, startList) && st.queue == queue && st.visited == visited && st.popped == from.popped && st.at == next && from.log <= st.log
  }

  ghost predicate Comes(b: Bfs, startList: seq<Iri>, from: Stand, r: Sweep, st: Stand, next: Key) {
    forall key {:trigger Asked(key)} :: Asked(key) && key == COMES ==> Arrives(b, startList, from, r, st, next)
  }

  const COMES := 32

  lemma ComesTo(b: Bfs, startList: seq<Iri>, from: Stand, r: Sweep, st: Stand, next: Key)
    requires Comes(b, startList, from, r, st, next)
    ensures Arrives(b, startList, from, r, st, next)
  {
    assert Asked(COMES);
  }

  lemma Moved(b: Bfs, startList: seq<Iri>, st: Stand, next: Key)
    requires st.(at := next).Running(b, startList)
    ensures Comes(b, startList, st, Swept(st.queue, st.visited), st.(at := next), next)
  {}

  lemma ComesFromFurther(b: Bfs, startList: seq<Iri>, from: Stand, further: Stand, r: Sweep, st: Stand, next: Key)
    requires Comes(b, startList, further, r, st, next) && from.log <= further.log && from.popped == further.popped
    ensures Comes(b, startList, from, r, st, next)
  {
    ComesTo(b, startList, further, r, st, next);
  }

  lemma {:induction false} NoteLogs(b: Bfs, startList: seq<Iri>, st: Stand) returns (r: Sweep, st': Stand)
    requires st.Running(b, startList) && st.AtConsumer(b) && Fed(b, st.log[st.at.src], st.Consumer(b))
    ensures r == b.Note(st.log[st.at.src], st.Consumer(b), st.at.pos, st.queue, st.visited)
    ensures Comes(b, startList, st, r, st', Key(st.at.src, st.at.nth + 1, 0))
    decreases |b.cat.Outputs(st.Consumer(b))| - st.at.pos
  {
    var e, c := st.log[st.at.src], st.Consumer(b);
    if st.at.pos >= |b.cat.Outputs(c)| {
      NextConsumer(b, startList, st);
      Moved(b, startList, st, Key(st.at.src, st.at.nth + 1, 0));
      return Swept(st.queue, st.visited), st.(at := Key(st.at.src, st.at.nth + 1, 0));
    }
    StandSays(b, startList, st);
    var o := b.cat.Outputs(c)[st.at.pos];
    if o == b.target {
      FoundHere(b, startList, st);
      return Hit(Pipeline(b.starts, b.target, e.steps + [StepOf(b.cat, c)], EdgesWith(e))), st;
    }
    var further := if o in st.visited then st.(at := Further(st.at)) else Pushed(st, NextAt(b, st));
    if o in st.visited { SkipSeen(b, startList, st); } else { PushNew(b, startList, st); }
    r, st' := NoteLogs(b, startList, further);
    ComesFromFurther(b, startList, st, further, r, st', Key(st.at.src, st.at.nth + 1, 0));
  }

  lemma TakeLogs(b: Bfs, startList: seq<Iri>, st: Stand) returns (r: Sweep, st': Stand)
    requires st.Running(b, startList) && st.AtConsumer(b) && st.at.pos == 0
    ensures r == b.Take(st.log[st.at.src], st.Consumer(b), st.queue, st.visited)
    ensures Comes(b, startList, st, r, st', Key(st.at.src, st.at.nth + 1, 0))
  {
    FedIsTaken(b, st.log[st.at.src], st.Consumer(b));
    if Fed(b, st.log[st.at.src], st.Consumer(b)) {
      r, st' := NoteLogs(b, startList, st);
    } else {
      NextConsumer(b, startList, st);
      Moved(b, startList, st, Key(st.at.src, st.at.nth + 1, 0));
      r, st' := Swept(st.queue, st.visited), st.(at := Key(st.at.src, st.at.nth + 1, 0));
    }
  }

  lemma StillExpanding(b: Bfs, startList: seq<Iri>, st: Stand, r: Sweep, taken: Stand)
    requires st.AtConsumer(b) && r.Swept? && Comes(b, startList, st, r, taken, Key(st.at.src, st.at.nth + 1, 0))
    ensures taken.Running(b, startList) && taken.queue == r.queue && taken.visited == r.visited && taken.popped == st.popped
    ensures taken.at == Key(st.at.src, st.at.nth + 1, 0) && st.log <= taken.log && taken.log[st.at.src] == st.log[st.at.src]
  {
    ComesTo(b, startList, st, r, taken, Key(st.at.src, st.at.nth + 1, 0));
  }

  lemma HitStays(b: Bfs, startList: seq<Iri>, from: Stand, r: Sweep, st: Stand, next: Key, next': Key)
    requires r.Hit? && Comes(b, startList, from, r, st, next)
    ensures Comes(b, startList, from, r, st, next')
  {
    ComesTo(b, startList, from, r, st, next);
  }

  lemma {:induction false} ExpandLogs(b: Bfs, startList: seq<Iri>, st: Stand) returns (r: Sweep, st': Stand)
    requires st.Running(b, startList) && st.at.src < |st.log| && st.popped == st.at.src + 1 && |st.log[st.at.src].steps| < b.maxDepth
    requires st.at.pos == 0 && st.at.nth <= |b.cat.Consumers(st.log[st.at.src].at)|
    ensures r == b.Expand(st.log[st.at.src], st.at.nth, st.queue, st.visited)
    ensures Comes(b, startList, st, r, st', Key(st.at.src + 1, 0, 0))
    decreases |b.cat.Consumers(st.log[st.at.src].at)| - st.at.nth
  {
    var next := Key(st.at.src + 1, 0, 0);
    if st.at.nth >= |b.cat.Consumers(st.log[st.at.src].at)| {
      NextEntry(b, startList, st);
      Moved(b, startList, st, next);
      return Swept(st.queue, st.visited), st.(at := next);
    }
    r, st' := TakeLogs(b, startList, st);
    if r.Hit? {
      HitStays(b, startList, st, r, st', Key(st.at.src, st.at.nth + 1, 0), next);
      return;
    }
    var taken := st';
    StillExpanding(b, startList, st, r, taken);
    r, st' := ExpandLogs(b, startList, taken);
    ComesFromFurther(b, startList, st, taken, r, st', next);
  }

  lemma {:induction false} WalkLogs(b: Bfs, startList: seq<Iri>, st: Stand) returns (v: FindVerdict, st': Stand)
    requires st.Running(b, startList) && st.at == Key(st.popped, 0, 0) && st.visited <= b.starts + b.cat.Universe()
    ensures v == b.Walk(st.queue, st.visited) && Logged(b, startList, v, st'.log, st'.keys, st'.at)
    decreases b.starts + b.cat.Universe() - st.visited, |st.queue|
  {
    StandSays(b, startList, st);
    if st.queue == [] {
      AllSeen(b, startList, st);
      return NoRoute(BfsExhausted, map[]), st;
    }
    Popping(b, startList, st);
    var e, popped := st.queue[0], st.(popped := st.popped + 1, queue := st.queue[1..]);
    if |e.steps| >= b.maxDepth {
      NextEntry(b, startList, popped);
      v, st' := WalkLogs(b, startList, popped.(at := Key(st.popped + 1, 0, 0)));
      return;
    }
    var r;
    r, st' := ExpandLogs(b, startList, popped);
    ComesTo(b, startList, popped, r, st', Key(st.popped + 1, 0, 0));
    if r.Hit? { return Route(r.route), st'; }
    if r.visited != st.visited { FewerUnvisited(b.starts + b.cat.Universe(), st.visited, r.visited); }
    v, st' := WalkLogs(b, startList, st');
  }

  lemma AllSeen(b: Bfs, startList: seq<Iri>, st: Stand)
    requires st.Running(b, startList) && st.at == Key(st.popped, 0, 0) && st.queue == []
    ensures Complete(b, startList, st.log, st.keys)
  {
    assert Asked(RUNNING);
    assert st.popped == |st.log|;
  }

  lemma Popping(b: Bfs, startList: seq<Iri>, st: Stand)
    requires st.Running(b, startList) && st.queue != []
    ensures st.popped < |st.log| && st.queue[0] == st.log[st.popped]
    ensures st.(popped := st.popped + 1, queue := st.queue[1..]).Running(b, startList)
  {
    StandSays(b, startList, st);
    assert st.log[st.popped..][1..] == st.log[st.popped + 1..];
    assert Asked(RUNNING);
  }

  /** The log of a search that came to `v`. */
  ghost predicate Logged(b: Bfs, startList: seq<Iri>, v: FindVerdict, log: seq<Entry>, keys: seq<Key>, hit: Key) {
    match v
    case Route(r) => FoundAt(b, startList, log, keys, hit, r)
    case NoRoute(reason, missing) => reason == BfsExhausted && missing == map[] && Complete(b, startList, log, keys)
  }

  /** What the search does, whatever the catalog: it goes through the starts, then through what it enqueued, in order, and for
      each through the consumers and their outputs in order, and stops where the target first comes up. Routes are as long as
      `max_depth` at most, and a capacity is taken exactly when all of its inputs are on the path. */
  lemma SearchIsLogged(b: Bfs, startList: seq<Iri>) returns (log: seq<Entry>, keys: seq<Key>, hit: Key)
    requires b.starts == SeqSet(startList) && b.target !in b.starts
    ensures Logged(b, startList, b.Find(startList), log, keys, hit)
  {
    var queue := seq(|startList|, i requires 0 <= i < |startList| => Entry(startList[i], [], [], START));
    StartsSeen(startList, queue);
    var st := Stand(queue, seq(|startList|, i => Key(0, 0, 0)), 0, queue, b.starts, Key(0, 0, 0));
    assert queue[0..] == queue;
    var v;
    v, st := WalkLogs(b, startList, st);
    log, keys, hit := st.log, st.keys, st.at;
  }

  lemma StartsSeen(startList: seq<Iri>, queue: seq<Entry>)
    requires |queue| == |startList| && forall i | 0 <= i < |queue| :: queue[i] == Entry(startList[i], [], [], START)
    ensures Ats(queue) == SeqSet(startList)
  {
    forall d | d in startList ensures d in Ats(queue) {
      var i :| 0 <= i < |startList| && startList[i] == d;
      assert queue[i].at == d;
    }
  }

  // ---- what a search without an answer has been through ----

  /** Each step on the way to an entry is the consumer that an entry no later than it was made by. */
  lemma {:induction false} StepFrom(b: Bfs, startList: seq<Iri>, log: seq<Entry>, keys: seq<Key>, i: nat, t: nat) returns (a: nat)
    requires IsLog(b, startList, log, keys) && i < |log| && t < |log[i].steps|
    ensures |startList| <= a <= i && MadeBy(b, log, a, keys[a]) && Taken(b, log, keys[a]) == log[i].steps[t].capacity
    decreases i
  {
    assert MadeBy(b, log, i, keys[i]);
    if t == |log[keys[i].src].steps| {
      a := i;
    } else {
      a := StepFrom(b, startList, log, keys, keys[i].src, t);
    }
  }

  /** An entry is made by the first that leads to its DataState. */
  lemma MadeByTheFirst(b: Bfs, startList: seq<Iri>, log: seq<Entry>, keys: seq<Key>, i: nat, l: Key)
    requires Complete(b, startList, log, keys) && |startList| <= i < |log|
    requires LeadsOut(b, log, l) && OutputAt(b, log, l) == log[i].at
    ensures !Before(l, keys[i])
  {
    assert SeenBy(startList, log, keys, OutputAt(b, log, l), l);
    var j :| 0 <= j < |log| && log[j].at == log[i].at && (j < |startList| || !Before(l, keys[j]));
    OneEntryEach(startList, log, i, j);
  }

  lemma OneEntryEach(startList: seq<Iri>, log: seq<Entry>, i: nat, j: nat)
    requires NoneTwice(startList, log) && |startList| <= i < |log| && j < |log| && log[j].at == log[i].at
    ensures i == j
  {}

  /** A capacity taken before has made all of its outputs before, so it makes no entry again. */
  lemma NotTakenTwice(b: Bfs, startList: seq<Iri>, log: seq<Entry>, keys: seq<Key>, i: nat, t: nat)
    requires Complete(b, startList, log, keys) && |startList| <= i < |log| && MadeBy(b, log, i, keys[i])
    requires t < |log[keys[i].src].steps|
    ensures log[keys[i].src].steps[t].capacity != Taken(b, log, keys[i])
  {
    var k := keys[i];
    var a := StepFrom(b, startList, log, keys, k.src, t);
    if Taken(b, log, keys[a]) == Taken(b, log, k) {
      MadeByTheFirst(b, startList, log, keys, i, Key(keys[a].src, keys[a].nth, k.pos));
    }
  }

  lemma {:induction false} EntryIsLinear(b: Bfs, startList: seq<Iri>, log: seq<Entry>, keys: seq<Key>, i: nat)
    requires Complete(b, startList, log, keys) && i < |log| && b.starts == SeqSet(startList)
    ensures Linear(b.cat, b.starts, log[i].steps, log[i].edges) && Arrived(b.starts, log[i].steps, log[i].at)
    ensures log[i].producer == |log[i].steps| - 1
    decreases i
  {
    if i < |startList| { return; }
    assert MadeBy(b, log, i, keys[i]);
    var e, c := log[keys[i].src], Taken(b, log, keys[i]);
    EntryIsLinear(b, startList, log, keys, keys[i].src);
    forall t | 0 <= t < |e.steps| ensures e.steps[t].capacity != c { NotTakenTwice(b, startList, log, keys, i, t); }
    LinearExtends(b.cat, b.starts, e.steps, e.edges, StepOf(b.cat, c), e.at);
  }

  /** The way to a DataState. */
  datatype Way = Way(steps: seq<DagStep>, edges: seq<DagEdge>)

  function FirstAt(log: seq<Entry>, x: Iri): (i: nat)
    requires x in Ats(log)
    ensures i < |log| && log[i].at == x && forall j | 0 <= j < i :: log[j].at != x
  {
    if log[0].at == x then 0 else FirstAt(log[1..], x) + 1
  }

  /** Whatever a consumer can make once its DataState is reached has been reached, and is not the target. */
  ghost predicate Closed(b: Bfs, came: map<Iri, Way>, x: Iri)
    requires x in came
  {
    forall c, o | c in b.cat.Consumers(x) && !b.cat.Refused(c) && o in b.cat.Outputs(c)
      && (forall d | d in b.cat.Inputs(c) :: d in Blackboard(b.starts, came[x].steps, |came[x].steps|)) ::
      o in came && o != b.target
  }

  /** Why no route is answered. There is one linear route to each of some DataStates, the empty one to each start, and
      wherever such a route is short enough to go on from, nothing that its steps and the starts suffice for leads out of
      these DataStates, or to the target. */
  lemma NoRouteIsClosed(b: Bfs, startList: seq<Iri>) returns (came: map<Iri, Way>)
    requires b.starts == SeqSet(startList) && b.Find(startList).NoRoute?
    ensures b.starts <= came.Keys && forall x | x in b.starts :: came[x] == Way([], [])
    ensures forall x | x in came :: Linear(b.cat, b.starts, came[x].steps, came[x].edges) && Arrived(b.starts, came[x].steps, x)
    ensures forall x | x in came && |came[x].steps| < b.maxDepth :: Closed(b, came, x)
  {
    var log, keys, hit := SearchIsLogged(b, startList);
    came := map x | x in Ats(log) :: Way(log[FirstAt(log, x)].steps, log[FirstAt(log, x)].edges);
    forall x | x in b.starts ensures x in came && came[x] == Way([], []) {
      var i :| 0 <= i < |startList| && startList[i] == x;
      assert log[i].at == x;
    }
    forall x | x in came ensures Linear(b.cat, b.starts, came[x].steps, came[x].edges) && Arrived(b.starts, came[x].steps, x) {
      EntryIsLinear(b, startList, log, keys, FirstAt(log, x));
    }
    forall x | x in came && |came[x].steps| < b.maxDepth ensures Closed(b, came, x) {
      EntryIsClosed(b, startList, log, keys, came, x);
    }
  }

  lemma EntryIsClosed(b: Bfs, startList: seq<Iri>, log: seq<Entry>, keys: seq<Key>, came: map<Iri, Way>, x: Iri)
    requires Complete(b, startList, log, keys) && came.Keys == Ats(log) && x in came
    requires came[x].steps == log[FirstAt(log, x)].steps && |came[x].steps| < b.maxDepth
    ensures Closed(b, came, x)
  {
    var i := FirstAt(log, x);
    forall c, o | c in b.cat.Consumers(x) && !b.cat.Refused(c) && o in b.cat.Outputs(c)
      && (forall d | d in b.cat.Inputs(c) :: d in Blackboard(b.starts, came[x].steps, |came[x].steps|))
      ensures o in came && o != b.target
    {
      var nth :| 0 <= nth < |b.cat.Consumers(x)| && b.cat.Consumers(x)[nth] == c;
      var pos :| 0 <= pos < |b.cat.Outputs(c)| && b.cat.Outputs(c)[pos] == o;
      var l := Key(i, nth, pos);
      assert LeadsOut(b, log, l) && OutputAt(b, log, l) == o && Before(l, Key(|log|, 0, 0));
      assert SeenBy(startList, log, keys, o, l);
    }
  }
}
