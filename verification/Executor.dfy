/** The priority-tier executor: a heap with entries left in it to go stale. */
module Executors {
  import opened Identifiers
  import opened Folding

  datatype Tier = Critical | Foreground | Background | Dream
  {
    function Value(): nat {
      match this
      case Critical => 0
      case Foreground => 1
      case Background => 2
      case Dream => 3
    }

    /** `default_score`. */
    /** Within the bounds of scores, 0 and 9999. */
    function DefaultScore(): (score: int)
      ensures 0 <= score <= 9999
    {
      match this
      case Critical => 1000
      case Foreground => 500
      case Background => 100
      case Dream => 10
    }
  }

  const DEFAULT_HYSTERESIS: int := 50

  /** A heap entry. `future` names the piece of work itself; an entry written anew for it keeps it. */
  datatype Entry = Entry(tier: Tier, score: int, seq_no: nat, id: Iri, future: nat, token: Option<Iri>)
  {
    /** `__lt__`: by tier, then the higher score, then the earlier entry. */
    predicate Before(other: Entry) {
      || tier.Value() < other.tier.Value()
      || (tier == other.tier && (score > other.score || (score == other.score && seq_no < other.seq_no)))
    }
  }

  ghost predicate Distinct(s: set<Entry>) { forall a, b | a in s && b in s :: a.seq_no == b.seq_no ==> a == b }

  predicate LeastOf(e: Entry, s: set<Entry>) { e in s && forall o | o in s && o != e :: e.Before(o) }

  /** `Before` orders entries with distinct sequence numbers totally, so every heap has one least entry. */
  lemma {:induction false} LeastExists(s: set<Entry>)
    requires s != {} && Distinct(s)
    ensures exists e :: LeastOf(e, s)
    decreases |s|
  {
    var x :| x in s;
    var rest := s - {x};
    assert forall o | o in s :: o == x || o in rest;
    if rest == {} {
      assert LeastOf(x, s);
    } else {
      LeastExists(rest);
      var y :| LeastOf(y, rest);
      assert x.seq_no != y.seq_no;
      var least := if x.Before(y) then x else y;
      forall o | o in s && o != least ensures least.Before(o) {}
      assert LeastOf(least, s);
    }
  }

  /** `heappop`. */
  method PopLeast(heap: set<Entry>) returns (e: Entry, rest: set<Entry>)
    requires heap != {} && Distinct(heap)
    ensures LeastOf(e, heap) && rest == heap - {e}
  {
    LeastExists(heap);
    e :| LeastOf(e, heap);
    rest := heap - {e};
  }

  predicate Highest(e: Entry, s: set<Entry>) { e in s && forall o | o in s :: o.score <= e.score }

  lemma {:induction false} HighestExists(s: set<Entry>)
    requires s != {}
    ensures exists e :: Highest(e, s)
    decreases |s|
  {
    var x :| x in s;
    var rest := s - {x};
    assert forall o | o in s :: o == x || o in rest;
    if rest == {} {
      assert Highest(x, s);
    } else {
      HighestExists(rest);
      var m :| Highest(m, rest);
      assert Highest(if x.score < m.score then m else x, s);
    }
  }

  /** The highest score among some entries. */
  ghost predicate IsMaxScore(m: int, s: set<Entry>) { exists e :: Highest(e, s) && e.score == m }

  function InTier(entries: map<Iri, Entry>, tier: Tier): set<Entry> {
    set id | id in entries && entries[id].tier == tier :: entries[id]
  }

  function MaxScore(s: set<Entry>): (m: int)
    requires s != {}
    ensures IsMaxScore(m, s)
  {
    HighestExists(s);
    var m: int :| m in (set e | e in s :: e.score) && forall o | o in s :: o.score <= m;
    m
  }

  /** `_top_of_tier_locked`. */
  function TopOfTier(pending: map<Iri, Entry>, running: map<Iri, Entry>, tier: Tier): (top: int)
    ensures forall id | id in pending && pending[id].tier == tier :: top > pending[id].score
    ensures forall id | id in running && running[id].tier == tier :: top > running[id].score
    ensures (forall id | id in pending :: pending[id].tier != tier) && (forall id | id in running :: running[id].tier != tier) ==>
      top == tier.DefaultScore()
  {
    var entries := InTier(pending, tier) + InTier(running, tier);
    assert forall id | id in pending && pending[id].tier == tier :: pending[id] in entries;
    assert forall id | id in running && running[id].tier == tier :: running[id] in entries;
    if entries == {} then tier.DefaultScore() else MaxScore(entries) + 1
  }

  predicate Outranks(arrival: Entry, running: Entry, hysteresis: int) {
    || arrival.tier.Value() < running.tier.Value()
    || (arrival.tier == running.tier && arrival.score > running.score + hysteresis)
  }

  /** Outranking follows the queue's order and never goes both ways: with a margin that is not negative, what preempts
      would also come first, and two tasks do not preempt each other. */
  lemma OutrankingFollowsOrder(a: Entry, b: Entry, hysteresis: int)
    requires hysteresis >= 0 && Outranks(a, b, hysteresis)
    ensures a.Before(b) && !Outranks(b, a, hysteresis)
  {}

  /** An arrival outranks a running task exactly when it would come before it even with the margin off its score. */
  lemma OutranksLessTheMargin(a: Entry, b: Entry, hysteresis: int)
    ensures Outranks(a, b, hysteresis) <==> a.(score := a.score - hysteresis, seq_no := b.seq_no).Before(b)
  {}

  /** Defaults of different tiers are further apart than the default margin, the more urgent tier's being higher. */
  lemma DefaultsAreApart(a: Tier, b: Tier)
    requires a.Value() < b.Value()
    ensures a.DefaultScore() > b.DefaultScore() + DEFAULT_HYSTERESIS
  {}

  /** The queue's order between tiers, whatever the scores: critical work first, dreams last. */
  lemma TierDecides(a: Entry, b: Entry)
    requires a.tier != b.tier
    ensures a.tier == Critical || b.tier == Dream || (a.tier == Foreground && b.tier == Background) ==> a.Before(b) && !b.Before(a)
  {}

  /** The tokens of the running tasks an arrival outranks. */
  function Preempted(arrival: Entry, running: map<Iri, Entry>, hysteresis: int): (tokens: set<Iri>)
    ensures forall t :: t in tokens <==> exists id :: id in running && running[id].token == Some(t) && Outranks(arrival, running[id], hysteresis)
  {
    set id | id in running && running[id].token.Some? && Outranks(arrival, running[id], hysteresis) :: running[id].token.value
  }

  ghost predicate Once(s: seq<nat>) { forall i, j | 0 <= i < j < |s| :: s[i] != s[j] }

  ghost predicate Awaits(pending: map<Iri, Entry>, f: nat) { exists id :: id in pending && pending[id].future == f }

  /** Every task handed in is waiting under one id, or was taken up once, or was lost: one of these, never two. */
  ghost predicate Accounted(issued: nat, pending: map<Iri, Entry>, started: seq<nat>, lost: set<nat>) {
    && Once(started)
    && (forall f: nat :: f < issued <==> f in started || f in lost || Awaits(pending, f))
    && (forall f | f in started :: f !in lost && !Awaits(pending, f))
    && (forall f | f in lost :: !Awaits(pending, f))
    && (forall a, b | a in pending && b in pending :: pending[a].future == pending[b].future ==> a == b)
  }

  /** The queue as the heap stands for it: what is pending is in the heap and live. */
  ghost predicate Holds(heap: set<Entry>, dead: set<nat>, pending: map<Iri, Entry>, next: nat) {
    && Distinct(heap) && (forall e | e in heap :: e.seq_no < next)
    && (forall id | id in pending :: pending[id].id == id && pending[id] in heap && pending[id].seq_no !in dead)
    && (forall s | s in dead :: s < next)
  }

  ghost predicate IsPending(pending: map<Iri, Entry>, e: Entry) { e.id in pending && pending[e.id] == e }

  ghost predicate FirstPending(e: Entry, pending: map<Iri, Entry>) {
    IsPending(pending, e) && forall id | id in pending && id != e.id :: e.Before(pending[id])
  }

  function Arrival(next: nat, future: nat, id: Iri, tier: Tier, score: Option<int>, token: Option<Iri>): Entry {
    Entry(tier, if score.Some? then score.value else tier.DefaultScore(), next, id, future, token)
  }

  /** What `write_priority` makes of a pending entry: a tier alone puts it on top of that tier. */
  function Rewritten(e: Entry, next: nat, score: Option<int>, tier: Option<Tier>, pending: map<Iri, Entry>, running: map<Iri, Entry>): Entry {
    var newTier := if tier.Some? then tier.value else e.tier;
    var newScore :=
      if score.Some? then score.value
      else if tier.Some? then TopOfTier(pending, running, newTier)
      else e.score;
    e.(tier := newTier, score := newScore, seq_no := next)
  }

  /** A tier alone puts a pending task strictly first among the pending tasks of that tier, and above its running ones. */
  lemma ElevatedIsFirst(id: Iri, next: nat, tier: Tier, pending: map<Iri, Entry>, running: map<Iri, Entry>)
    requires id in pending
    ensures var e := Rewritten(pending[id], next, None, Some(tier), pending, running);
      && e.tier == tier && e.future == pending[id].future
      && (forall o | o in pending && o != id && pending[o].tier == tier :: e.Before(pending[o]) && !pending[o].Before(e))
      && (forall o | o in running && running[o].tier == tier :: e.score > running[o].score)
  {}

  // ---- what each step keeps ----

  lemma SubmitHolds(heap: set<Entry>, dead: set<nat>, pending: map<Iri, Entry>, next: nat, e: Entry)
    requires Holds(heap, dead, pending, next) && e.seq_no == next
    ensures Holds(heap + {e}, dead, pending[e.id := e], next + 1)
  {}

  function Superseded(pending: map<Iri, Entry>, id: Iri): set<nat> { if id in pending then {pending[id].future} else {} }

  lemma AwaitsAfterSubmit(pending: map<Iri, Entry>, issued: nat, started: seq<nat>, lost: set<nat>, e: Entry, f: nat)
    requires Accounted(issued, pending, started, lost) && e.future == issued
    ensures Awaits(pending[e.id := e], f) <==> f == issued || (Awaits(pending, f) && f !in Superseded(pending, e.id))
  {
    var pending' := pending[e.id := e];
    assert pending'[e.id].future == issued;
    if Awaits(pending, f) {
      var id :| id in pending && pending[id].future == f;
      assert id != e.id ==> pending'[id].future == f;
    }
    if Awaits(pending', f) {
      var id :| id in pending' && pending'[id].future == f;
      assert id != e.id ==> id in pending && pending[id].future == f;
    }
  }

  lemma SubmitKeeps(pending: map<Iri, Entry>, issued: nat, started: seq<nat>, lost: set<nat>, e: Entry)
    requires Accounted(issued, pending, started, lost) && e.future == issued
    ensures Accounted(issued + 1, pending[e.id := e], started, lost + Superseded(pending, e.id))
  {
    forall f: nat ensures Awaits(pending[e.id := e], f) <==> f == issued || (Awaits(pending, f) && f !in Superseded(pending, e.id)) {
      AwaitsAfterSubmit(pending, issued, started, lost, e, f);
    }
    assert forall id | id in pending :: Awaits(pending, pending[id].future);
  }

  lemma RewriteKeeps(
    heap: set<Entry>, dead: set<nat>, pending: map<Iri, Entry>, next: nat, issued: nat, started: seq<nat>, lost: set<nat>, e: Entry)
    requires Holds(heap, dead, pending, next) && Accounted(issued, pending, started, lost)
    requires e.id in pending && e.seq_no == next && e.future == pending[e.id].future
    ensures Holds(heap + {e}, dead + {pending[e.id].seq_no}, pending[e.id := e], next + 1)
    ensures Accounted(issued, pending[e.id := e], started, lost)
  {
    var pending' := pending[e.id := e];
    forall id | id in pending' ensures pending'[id].seq_no != pending[e.id].seq_no {
      if id != e.id { assert pending[id] != pending[e.id]; }
    }
    forall f ensures Awaits(pending', f) <==> Awaits(pending, f) {
      if Awaits(pending, f) {
        var id :| id in pending && pending[id].future == f;
        assert id in pending' && pending'[id].future == f;
      }
      if Awaits(pending', f) {
        var id :| id in pending' && pending'[id].future == f;
        assert id in pending && pending[id].future == f;
      }
    }
  }

  lemma TakeKeeps(pending: map<Iri, Entry>, issued: nat, started: seq<nat>, lost: set<nat>, id: Iri)
    requires Accounted(issued, pending, started, lost) && id in pending
    ensures Accounted(issued, pending - {id}, started + [pending[id].future], lost)
  {
    var f0 := pending[id].future;
    var pending', started' := pending - {id}, started + [f0];
    assert Awaits(pending, f0);
    forall f ensures Awaits(pending', f) <==> Awaits(pending, f) && f != f0 {
      if Awaits(pending, f) && f != f0 {
        var o :| o in pending && pending[o].future == f;
        assert o in pending';
      }
      if Awaits(pending', f) {
        var o :| o in pending' && pending'[o].future == f;
        assert o in pending && pending[o].future == f;
      }
    }
    assert forall f :: f in started' <==> f in started || f == f0;
  }

  /** All of this, kept folded. */
  ghost predicate Queued(heap: set<Entry>, dead: set<nat>, pending: map<Iri, Entry>, next: nat, issued: nat, started: seq<nat>, lost: set<nat>) {
    forall key {:trigger Asked(key)} :: Asked(key) ==> Holds(heap, dead, pending, next) && Accounted(issued, pending, started, lost)
  }

  lemma SubmitQueued(
    heap: set<Entry>, dead: set<nat>, pending: map<Iri, Entry>, next: nat, issued: nat, started: seq<nat>, lost: set<nat>, e: Entry)
    requires Queued(heap, dead, pending, next, issued, started, lost) && e.seq_no == next && e.future == issued
    ensures Queued(heap + {e}, dead, pending[e.id := e], next + 1, issued + 1, started, lost + Superseded(pending, e.id))
  {
    assert Asked(0);
    SubmitHolds(heap, dead, pending, next, e);
    SubmitKeeps(pending, issued, started, lost, e);
  }

  /** First come, first served: a new arrival comes after everything pending of its tier and score. */
  lemma ArrivalIsLast(
    heap: set<Entry>, dead: set<nat>, pending: map<Iri, Entry>, next: nat, issued: nat, started: seq<nat>, lost: set<nat>, id: Iri, e: Entry)
    requires Queued(heap, dead, pending, next, issued, started, lost) && e.seq_no == next
    requires id in pending && pending[id].tier == e.tier && pending[id].score >= e.score
    ensures pending[id].Before(e) && !e.Before(pending[id])
  {
    assert Asked(0);
  }

  lemma RewriteQueued(
    heap: set<Entry>, dead: set<nat>, pending: map<Iri, Entry>, next: nat, issued: nat, started: seq<nat>, lost: set<nat>, id: Iri, e: Entry)
    requires Queued(heap, dead, pending, next, issued, started, lost)
    requires id in pending && e.id == pending[id].id && e.seq_no == next && e.future == pending[id].future
    ensures e.id == id
    ensures Queued(heap + {e}, dead + {pending[id].seq_no}, pending[id := e], next + 1, issued, started, lost)
  {
    assert Asked(0);
    RewriteKeeps(heap, dead, pending, next, issued, started, lost, e);
  }

  lemma TakeQueued(
    heap: set<Entry>, heap': set<Entry>, dead: set<nat>, pending: map<Iri, Entry>, next: nat, issued: nat, started: seq<nat>, lost: set<nat>, e: Entry)
    requires Queued(heap, dead, pending, next, issued, started, lost) && IsPending(pending, e)
    requires heap' <= heap && forall id | id in pending && pending[id] != e :: pending[id] in heap'
    ensures Queued(heap', dead, pending - {e.id}, next, issued, started + [e.future], lost)
  {
    assert Asked(0);
    TakeKeeps(pending, issued, started, lost, e.id);
  }

  lemma EmptyQueued(
    heap: set<Entry>, heap': set<Entry>, dead: set<nat>, pending: map<Iri, Entry>, next: nat, issued: nat, started: seq<nat>, lost: set<nat>)
    requires Queued(heap, dead, pending, next, issued, started, lost) && heap' <= heap && pending == map[]
    ensures Queued(heap', dead, pending, next, issued, started, lost)
  {
    assert Asked(0);
  }

  class Executor {
    const hysteresis: int
    var heap: set<Entry>
    var dead: set<nat>
    var pending: map<Iri, Entry>
    var running: map<Iri, Entry>
    var next: nat
    var issued: nat
    var stopping: bool
    var cancelRequested: set<Iri>
    ghost var started: seq<nat>
    ghost var lost: set<nat>

    constructor (hysteresis: int)
      ensures Valid() && pending == map[] && running == map[] && !stopping && lost == {} && started == []
      ensures this.hysteresis == hysteresis && cancelRequested == {} && issued == 0
    {
      this.hysteresis, heap, dead, pending, running := hysteresis, {}, {}, map[], map[];
      next, issued, stopping, cancelRequested, started, lost := 0, 0, false, {}, [], {};
    }

    ghost predicate Valid()
      reads this
    {
      Queued(heap, dead, pending, next, issued, started, lost)
    }

    /** `submit`: refused once stopping; otherwise the work waits under its id, and one that waited there is lost. */
    method Submit(id: Iri, tier: Tier, score: Option<int>, token: Option<Iri>, preempt: bool) returns (ok: bool)
      requires Valid()
      modifies this
      ensures Valid() && ok == !old(stopping) && stopping == old(stopping) && running == old(running) && started == old(started)
      ensures !ok ==> pending == old(pending) && issued == old(issued) && lost == old(lost) && cancelRequested == old(cancelRequested)
      ensures ok ==> issued == old(issued) + 1 && pending == old(pending)[id := Arrival(old(next), old(issued), id, tier, score, token)]
      ensures ok ==> pending[id].tier == tier && pending[id].score == (if score.Some? then score.value else tier.DefaultScore())
      ensures ok ==> lost == old(lost) + Superseded(old(pending), id)
      ensures ok ==> cancelRequested == old(cancelRequested) + if preempt then Preempted(pending[id], running, hysteresis) else {}
    {
      if stopping { return false; }
      var entry := Arrival(next, issued, id, tier, score, token);
      SubmitQueued(heap, dead, pending, next, issued, started, lost, entry);
      assert entry.id == id;
      lost, next, issued := lost + Superseded(pending, id), next + 1, issued + 1;
      pending, heap := pending[id := entry], heap + {entry};
      assert Valid();
      if preempt { cancelRequested := cancelRequested + Preempted(entry, running, hysteresis); }
      ok := true;
    }

    /** `write_priority`: a pending task gets a new entry and the old one goes stale where it lies; a running one is
        changed in place. */
    method WritePriority(id: Iri, score: Option<int>, tier: Option<Tier>)
      requires Valid()
      modifies this
      ensures Valid() && stopping == old(stopping) && started == old(started) && lost == old(lost) && issued == old(issued)
      ensures id in old(pending) ==>
        var e := Rewritten(old(pending)[id], old(next), score, tier, old(pending), old(running));
        && pending == old(pending)[id := e] && running == old(running)
        && cancelRequested == old(cancelRequested) + Preempted(e, running, hysteresis)
      ensures id in old(pending) ==>
        && (score.Some? ==> pending[id].score == score.value) && (score.None? && tier.None? ==> pending[id].score == old(pending)[id].score)
        && pending[id].tier == (if tier.Some? then tier.value else old(pending)[id].tier)
        && pending[id].token == old(pending)[id].token && pending[id].future == old(pending)[id].future
      ensures id !in old(pending) && id in old(running) ==>
        && pending == old(pending)
        && running == old(running)[id := old(running)[id].(
             tier := if tier.Some? then tier.value else old(running)[id].tier,
             score := if score.Some? then score.value else old(running)[id].score)]
      ensures id !in old(pending) && id !in old(running) ==> pending == old(pending) && running == old(running)
      ensures id !in old(pending) ==> cancelRequested == old(cancelRequested)
    {
      if id !in pending {
        if id in running {
          if tier.Some? { running := running[id := running[id].(tier := tier.value)]; }
          if score.Some? { running := running[id := running[id].(score := score.value)]; }
        }
        return;
      }
      var entry := pending[id];
      var replacement := Rewritten(entry, next, score, tier, pending, running);
      RewriteQueued(heap, dead, pending, next, issued, started, lost, id, replacement);
      dead := dead + {entry.seq_no};
      next := next + 1;
      pending := pending[id := replacement];
      heap := heap + {replacement};
      cancelRequested := cancelRequested + Preempted(replacement, running, hysteresis);
    }

    /** `_pop_live_locked`: stale entries fall out on the way; nothing comes out exactly when nothing is pending, and
        otherwise the first of all pending tasks does. */
    method PopLive() returns (entry: Option<Entry>)
      requires Valid()
      modifies this`heap
      ensures heap <= old(heap)
      ensures entry.None? <==> pending == map[]
      ensures entry.Some? ==> FirstPending(entry.value, pending)
      ensures forall id | id in pending && (entry.None? || entry.value != pending[id]) :: pending[id] in heap
    {
      entry := None;
      assert Asked(0);
      while heap != {}
        invariant Holds(heap, dead, pending, next) && heap <= old(heap)
        decreases |heap|
      {
        var e, rest := PopLeast(heap);
        heap := rest;
        if e.seq_no !in dead && e.id in pending && pending[e.id] == e { return Some(e); }
      }
    }

    /** A worker's turn under the lock: it returns once the executor is stopping and nothing is left, waits when
        nothing is pending, and otherwise takes up the first pending task. */
    method Take() returns (entry: Option<Entry>, leaves: bool)
      requires Valid()
      modifies this
      ensures Valid() && stopping == old(stopping) && lost == old(lost) && issued == old(issued) && cancelRequested == old(cancelRequested)
      ensures leaves <==> old(stopping) && old(pending) == map[]
      ensures entry.None? <==> old(pending) == map[]
      ensures entry.None? ==> pending == old(pending) && running == old(running) && started == old(started)
      ensures entry.Some? ==>
        && FirstPending(entry.value, old(pending)) && pending == old(pending) - {entry.value.id}
        && running == old(running)[entry.value.id := entry.value] && started == old(started) + [entry.value.future]
    {
      if stopping && pending == map[] { return None, true; }
      leaves := false;
      ghost var before := heap;
      entry := PopLive();
      if entry.None? {
        EmptyQueued(before, heap, dead, pending, next, issued, started, lost);
      } else {
        TakeQueued(before, heap, dead, pending, next, issued, started, lost, entry.value);
        started := started + [entry.value.future];
        pending := pending - {entry.value.id};
        running := running[entry.value.id := entry.value];
      }
    }

    /** A task is through, or was cancelled before it could run. */
    method Finish(id: Iri)
      requires Valid()
      modifies this`running
      ensures Valid() && running == old(running) - {id}
    {
      running := running - {id};
    }

    method Shutdown()
      requires Valid()
      modifies this`stopping
      ensures Valid() && stopping
    {
      stopping := true;
    }
  }

  // ---- whole runs ----

  datatype Op =
    | Submit(id: Iri, tier: Tier, score: Option<int>, token: Option<Iri>, preempt: bool)
    | WritePriority(id: Iri, newScore: Option<int>, newTier: Option<Tier>)
    | Take
    | Finish(id: Iri)
    | Shutdown

  /** No request id is submitted twice. */
  predicate FreshIds(ops: seq<Op>) {
    forall i, j | 0 <= i < j < |ops| :: ops[i].Submit? && ops[j].Submit? ==> ops[i].id != ops[j].id
  }

  ghost predicate SubmittedIn(ops: seq<Op>, id: Iri) { exists i :: 0 <= i < |ops| && ops[i].Submit? && ops[i].id == id }

  method Step(x: Executor, op: Op)
    requires x.Valid()
    modifies x
    ensures x.Valid()
    ensures forall id | id in x.pending :: id in old(x.pending) || (op.Submit? && id == op.id)
    ensures (op.Submit? ==> op.id !in old(x.pending)) ==> x.lost == old(x.lost)
    ensures old(x.started) <= x.started
  {
    match op
    case Submit(id, tier, score, token, preempt) => var ok := x.Submit(id, tier, score, token, preempt);
    case WritePriority(id, score, tier) => x.WritePriority(id, score, tier);
    case Take => var entry, leaves := x.Take();
    case Finish(id) => x.Finish(id);
    case Shutdown => x.Shutdown();
  }

  /** Any run: every task handed in waits, was taken up exactly once, or was superseded under its own id; and if no
      request id is submitted twice, none was lost. */
  method Perform(ops: seq<Op>, hysteresis: int) returns (x: Executor)
    ensures fresh(x) && x.Valid()
    ensures Accounted(x.issued, x.pending, x.started, x.lost)
    ensures FreshIds(ops) ==> x.lost == {}
  {
    assert Asked(0);
    x := new Executor(hysteresis);
    for k := 0 to |ops|
      invariant fresh(x) && x.Valid()
      invariant forall id | id in x.pending :: SubmittedIn(ops[..k], id)
      invariant FreshIds(ops) ==> x.lost == {}
    {
      ghost var was := x.pending;
      OneMoreOp(ops, k);
      Step(x, ops[k]);
    }
  }

  lemma OneMoreOp(ops: seq<Op>, k: nat)
    requires k < |ops|
    ensures forall id | SubmittedIn(ops[..k], id) :: SubmittedIn(ops[..k + 1], id)
    ensures ops[k].Submit? ==> SubmittedIn(ops[..k + 1], ops[k].id)
    ensures FreshIds(ops) && ops[k].Submit? ==> !SubmittedIn(ops[..k], ops[k].id)
  {
    var a, b := ops[..k], ops[..k + 1];
    forall id | SubmittedIn(a, id) ensures SubmittedIn(b, id) {
      var i :| 0 <= i < |a| && a[i].Submit? && a[i].id == id;
      assert b[i] == a[i];
    }
    assert b[k] == ops[k];
  }

  /** The pending tasks, first to last. */
  ghost predicate InOrder(order: seq<Entry>, entries: set<Entry>) {
    && (forall i, j | 0 <= i < j < |order| :: order[i].Before(order[j]))
    && (forall e :: e in order <==> e in entries)
  }

  /** There is one such order, whatever sorts it. */
  lemma {:induction false} OneOrder(a: seq<Entry>, b: seq<Entry>, entries: set<Entry>)
    requires InOrder(a, entries) && InOrder(b, entries)
    ensures a == b
    decreases |a|
  {
    assert |a| > 0 ==> a[0] in a;
    assert |b| > 0 ==> b[0] in b;
    if a != [] {
      var i :| 0 <= i < |b| && b[i] == a[0];
      var j :| 0 <= j < |a| && a[j] == b[0];
      assert i == 0;
      RestInOrder(a, entries);
      RestInOrder(b, entries);
      OneOrder(a[1..], b[1..], entries - {a[0]});
      assert a == [a[0]] + a[1..] && b == [b[0]] + b[1..];
    }
  }

  lemma RestInOrder(a: seq<Entry>, entries: set<Entry>)
    requires a != [] && InOrder(a, entries)
    ensures InOrder(a[1..], entries - {a[0]})
  {
    assert a == [a[0]] + a[1..];
    assert forall e | e in a[1..] :: a[0].Before(e);
  }

  ghost function Entries(pending: map<Iri, Entry>): set<Entry> { set id | id in pending :: pending[id] }

  /** With nothing more handed in, the workers take up the pending tasks in exactly the order `pending_order` gives. */
  method Drain(x: Executor) returns (taken: seq<Entry>)
    requires x.Valid()
    modifies x
    ensures x.Valid() && x.pending == map[]
    ensures InOrder(taken, Entries(old(x.pending)))
  {
    taken := [];
    ghost var was := x.pending;
    while x.pending != map[]
      invariant x.Valid()
      invariant Drained(was, x.pending, taken)
      decreases |x.pending|
    {
      ghost var before := x.pending;
      var entry, leaves := x.Take();
      DrainedMore(was, before, taken, entry.value);
      taken := taken + [entry.value];
    }
  }

  ghost predicate Drained(was: map<Iri, Entry>, now: map<Iri, Entry>, taken: seq<Entry>) {
    && (forall i, j | 0 <= i < j < |taken| :: taken[i].Before(taken[j]))
    && (forall e :: e in Entries(was) <==> e in taken || e in Entries(now))
    && (forall e, id | e in taken && id in now :: e.Before(now[id]))
  }

  lemma DrainedMore(was: map<Iri, Entry>, now: map<Iri, Entry>, taken: seq<Entry>, e: Entry)
    requires Drained(was, now, taken) && FirstPending(e, now)
    ensures Drained(was, now - {e.id}, taken + [e]) && |now - {e.id}| < |now|
  {
    var rest := now - {e.id};
    EntriesLess(now, e);
    assert forall u :: u in taken + [e] <==> u in taken || u == e;
    forall i, j | 0 <= i < j < |taken + [e]| ensures (taken + [e])[i].Before((taken + [e])[j]) {
      assert taken[i] in taken && now[e.id] == e;
    }
    forall u, id | u in taken + [e] && id in rest ensures u.Before(rest[id]) { assert rest[id] == now[id]; }
  }

  lemma EntriesLess(now: map<Iri, Entry>, e: Entry)
    requires IsPending(now, e)
    ensures forall u :: u in Entries(now) <==> u == e || u in Entries(now - {e.id})
    ensures |now - {e.id}| < |now|
  {
    var rest := now - {e.id};
    assert now[e.id] == e;
    forall u ensures u in Entries(now) <==> u == e || u in Entries(rest) {
      if u in Entries(now) {
        var id :| id in now && now[id] == u;
        assert id != e.id ==> id in rest && rest[id] == u;
      }
      if u in Entries(rest) {
        var id :| id in rest && rest[id] == u;
        assert id in now && now[id] == u;
      }
    }
    assert now == rest[e.id := e];
  }

  /** Submitting a request id again while its task still waits loses that task: it is taken up by no worker. */
  method DuplicateLosesATask() returns (x: Executor)
    ensures x.Valid() && x.lost == {0} && x.pending == map[] && 0 !in x.started
  {
    var id := Iri("r");
    x := new Executor(DEFAULT_HYSTERESIS);
    var first := x.Submit(id, Foreground, None, None, true);
    var second := x.Submit(id, Foreground, None, None, true);
    var entry, leaves := x.Take();
    assert Asked(0);
  }
}
