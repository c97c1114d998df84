/** The map over a collection, the re-run of one of its members, and what the fold makes of the domain. */
module MapFold {
  import opened Identifiers

  datatype Value = Value(content: int)

  /** A value's producing instance. */
  datatype Producer = Producer(graph: Iri, instance: Iri)

  /** Where a value came from; only the produced kind can be added up over members. */
  datatype Origin = Produced(sources: seq<Producer>) | Unrecorded | OtherOrigin

  /** One member's result; a stopped member has no value and no origin, but may have a grounding graph. */
  datatype Outcome =
    | Completed(value: Value, graph: Option<Iri>, origin: Origin)
    | Stopped(graph: Option<Iri>)

  /** What a map leaves on the blackboard: the completed members' outputs, and three lists with a place for every
      member. */
  datatype Carriers = Carriers(
    outputs: seq<Value>, ids: seq<Option<Iri>>, mask: seq<bool>, origins: seq<Option<Origin>>, collection: Origin)

  datatype Status = StatusCompleted | StatusStopped

  // ---- what a full fan-out over given outcomes leaves ----

  function ValuesOf(outs: seq<Outcome>): seq<Value> {
    if outs == [] then []
    else ValuesOf(outs[..|outs| - 1]) + if outs[|outs| - 1].Completed? then [outs[|outs| - 1].value] else []
  }

  function IdsOf(outs: seq<Outcome>): (r: seq<Option<Iri>>)
    ensures |r| == |outs| && forall i | 0 <= i < |outs| :: r[i] == outs[i].graph
  {
    seq(|outs|, i requires 0 <= i < |outs| => outs[i].graph)
  }

  function MaskOf(outs: seq<Outcome>): (r: seq<bool>)
    ensures |r| == |outs| && forall i | 0 <= i < |outs| :: r[i] == outs[i].Completed?
  {
    seq(|outs|, i requires 0 <= i < |outs| => outs[i].Completed?)
  }

  function OriginIn(o: Outcome): Option<Origin> { if o.Completed? then Some(o.origin) else None }

  function OriginsOf(outs: seq<Outcome>): (r: seq<Option<Origin>>)
    ensures |r| == |outs| && forall i | 0 <= i < |outs| :: r[i] == OriginIn(outs[i])
    ensures forall i | 0 <= i < |outs| :: (r[i].Some? <==> outs[i].Completed?) && (outs[i].Completed? ==> r[i] == Some(outs[i].origin))
  {
    seq(|outs|, i requires 0 <= i < |outs| => OriginIn(outs[i]))
  }

  function Producers(origins: seq<Option<Origin>>): seq<Producer> {
    if origins == [] then []
    else (if origins[0].Some? && origins[0].value.Produced? then origins[0].value.sources else []) + Producers(origins[1..])
  }

  /** `_collection_origin`: all the completed members' producers in member order, or nothing at all. */
  function CollectionOrigin(origins: seq<Option<Origin>>): Origin {
    if forall o | o in origins :: o.Some? ==> o.value.Produced? then Produced(Producers(origins)) else Unrecorded
  }

  /** Over members one after the other the origins add up, or are lost; a stopped member adds nothing. */
  lemma CollectionOriginAdds(a: seq<Option<Origin>>, b: seq<Option<Origin>>, o: Option<Origin>)
    ensures CollectionOrigin([o]) == (if o.None? then Produced([]) else if o.value.Produced? then o.value else Unrecorded)
    ensures CollectionOrigin(a + b) ==
      (if CollectionOrigin(a).Produced? && CollectionOrigin(b).Produced?
       then Produced(CollectionOrigin(a).sources + CollectionOrigin(b).sources) else Unrecorded)
  {
    assert o in [o] && [o][1..] == [] && Producers([o]) == (if o.Some? && o.value.Produced? then o.value.sources else []);
    assert forall x :: x in a + b <==> x in a || x in b;
    ProducersAdd(a, b);
  }

  lemma {:induction false} ProducersAdd(a: seq<Option<Origin>>, b: seq<Option<Origin>>)
    ensures Producers(a + b) == Producers(a) + Producers(b)
  {
    if a == [] {
      assert a + b == b;
    } else {
      assert (a + b)[1..] == a[1..] + b;
      ProducersAdd(a[1..], b);
    }
  }

  function FanOut(outs: seq<Outcome>): Carriers {
    Carriers(ValuesOf(outs), IdsOf(outs), MaskOf(outs), OriginsOf(outs), CollectionOrigin(OriginsOf(outs)))
  }

  predicate AllTrue(mask: seq<bool>) { forall c | c in mask :: c }

  function StatusOf(mask: seq<bool>): Status { if AllTrue(mask) then StatusCompleted else StatusStopped }

  // ---- positions in the compact list ----

  function CountTrue(mask: seq<bool>): nat {
    if mask == [] then 0 else CountTrue(mask[..|mask| - 1]) + if mask[|mask| - 1] then 1 else 0
  }

  lemma {:induction false} ValuesAdd(a: seq<Outcome>, b: seq<Outcome>)
    ensures ValuesOf(a + b) == ValuesOf(a) + ValuesOf(b)
  {
    if b == [] {
      assert a + b == a;
    } else {
      var rest := b[..|b| - 1];
      ValuesAdd(a, rest);
      assert (a + b)[..|a + b| - 1] == a + rest;
    }
  }

  lemma {:induction false} CountIsLength(outs: seq<Outcome>)
    ensures CountTrue(MaskOf(outs)) == |ValuesOf(outs)|
  {
    if outs != [] {
      var rest := outs[..|outs| - 1];
      CountIsLength(rest);
      assert MaskOf(outs)[..|outs| - 1] == MaskOf(rest);
    }
  }

  /** As many completed members come before a place as there are outputs before the place's own. */
  lemma ValuesAround(outs: seq<Outcome>, i: nat)
    requires i < |outs|
    ensures ValuesOf(outs) == ValuesOf(outs[..i]) + ValuesOf([outs[i]]) + ValuesOf(outs[i + 1..])
    ensures CountTrue(MaskOf(outs)[..i]) == |ValuesOf(outs[..i])|
  {
    assert outs == outs[..i] + [outs[i]] + outs[i + 1..];
    ValuesAdd(outs[..i] + [outs[i]], outs[i + 1..]);
    ValuesAdd(outs[..i], [outs[i]]);
    CountIsLength(outs[..i]);
    assert MaskOf(outs)[..i] == MaskOf(outs[..i]);
  }

  // ---- one member re-run ----

  /** Stopped members without a graph, up to and including place `i`. */
  function Padded(outs: seq<Outcome>, i: nat): (r: seq<Outcome>)
    ensures |r| > i && |r| >= |outs| && r[..|outs|] == outs
    ensures forall k | |outs| <= k < |r| :: r[k] == Stopped(None)
    ensures i < |outs| ==> r == outs
  {
    if i < |outs| then outs else outs + seq(i + 1 - |outs|, k => Stopped(None))
  }

  function PadMask(mask: seq<bool>, i: nat): (r: seq<bool>)
    ensures |r| > i
  {
    if i < |mask| then mask else mask + seq(i + 1 - |mask|, k => false)
  }

  function PadOrigins(origins: seq<Option<Origin>>, i: nat): (r: seq<Option<Origin>>)
    ensures |r| > i
  {
    if i < |origins| then origins else origins + seq(i + 1 - |origins|, k => None)
  }

  function ValueOf(o: Outcome): seq<Value> { if o.Completed? then [o.value] else [] }

  /** The compact list with place `pos` replaced, filled or emptied. */
  function SpliceOutputs(outputs: seq<Value>, pos: nat, was: bool, o: Outcome): seq<Value>
    requires if was then pos < |outputs| else pos <= |outputs|
  {
    outputs[..pos] + ValueOf(o) + if was then outputs[pos + 1..] else outputs[pos..]
  }

  lemma CountUpTo(mask: seq<bool>, i: nat)
    requires i < |mask|
    ensures CountTrue(mask[..i]) <= CountTrue(mask)
    ensures mask[i] ==> CountTrue(mask[..i]) < CountTrue(mask)
    decreases |mask|
  {
    if i < |mask| - 1 {
      CountUpTo(mask[..|mask| - 1], i);
      assert mask[..|mask| - 1][..i] == mask[..i];
    }
  }

  /** The re-run's splice into carriers whose lists agree; lists that do not are an error. */
  function Splice(c: Carriers, i: nat, o: Outcome): Option<Carriers> {
    var mask := PadMask(c.mask, i);
    if |c.outputs| != CountTrue(mask) then None
    else
      CountUpTo(mask, i);
      var origins := PadOrigins(c.origins, i)[i := OriginIn(o)];
      Some(Carriers(
        SpliceOutputs(c.outputs, CountTrue(mask[..i]), mask[i], o),
        if i < |c.ids| then c.ids[i := o.graph] else c.ids + [o.graph],
        mask[i := o.Completed?],
        origins,
        CollectionOrigin(origins)))
  }

  lemma PadMaskIs(outs: seq<Outcome>, i: nat)
    ensures PadMask(MaskOf(outs), i) == MaskOf(Padded(outs, i))
    ensures PadOrigins(OriginsOf(outs), i) == OriginsOf(Padded(outs, i))
    ensures ValuesOf(Padded(outs, i)) == ValuesOf(outs)
  {
    if i >= |outs| {
      var pad := seq(i + 1 - |outs|, k => Stopped(None));
      ValuesAdd(outs, pad);
      NoValues(pad);
    }
  }

  lemma {:induction false} NoValues(outs: seq<Outcome>)
    requires forall o | o in outs :: o.Stopped?
    ensures ValuesOf(outs) == []
  {
    if outs != [] {
      assert outs[|outs| - 1] in outs;
      NoValues(outs[..|outs| - 1]);
    }
  }

  /** The splice is recomputation: what a re-run leaves is what a full fan-out over the members' latest outcomes would,
      value for value and place for place. The grounding ids too, exactly when the member is one of those the last run
      had or the next one after them. */
  lemma SpliceIsRecomputation(outs: seq<Outcome>, i: nat, o: Outcome)
    ensures var now := Padded(outs, i)[i := o]; var c := Splice(FanOut(outs), i, o);
      && c.Some? && c.value.outputs == ValuesOf(now) && c.value.mask == MaskOf(now)
      && c.value.origins == OriginsOf(now) && c.value.collection == CollectionOrigin(OriginsOf(now))
      && (c.value.ids == IdsOf(now) <==> i <= |outs|)
  {
    var was := Padded(outs, i);
    var now := was[i := o];
    PadMaskIs(outs, i);
    CountIsLength(was);
    ValuesSplice(was, i, o);
    assert MaskOf(was)[i := o.Completed?] == MaskOf(now);
    assert OriginsOf(was)[i := OriginIn(o)] == OriginsOf(now);
    IdsSplice(outs, i, o);
  }

  lemma ValuesSplice(was: seq<Outcome>, i: nat, o: Outcome)
    requires i < |was|
    ensures CountTrue(MaskOf(was)[..i]) + |ValueOf(was[i])| <= |ValuesOf(was)|
    ensures SpliceOutputs(ValuesOf(was), CountTrue(MaskOf(was)[..i]), was[i].Completed?, o) == ValuesOf(was[i := o])
  {
    var now := was[i := o];
    ValuesAround(was, i);
    ValuesAround(now, i);
    assert now[..i] == was[..i] && now[i + 1..] == was[i + 1..];
    OneValue(was[i]);
    OneValue(o);
    SpliceParts(ValuesOf(was), ValuesOf(was[..i]), ValueOf(was[i]), ValuesOf(was[i + 1..]), o);
  }

  lemma OneValue(o: Outcome)
    ensures ValuesOf([o]) == ValueOf(o)
  {
    assert [o][..0] == [];
  }

  lemma SpliceParts(all: seq<Value>, before: seq<Value>, own: seq<Value>, after: seq<Value>, o: Outcome)
    requires all == before + own + after && |own| <= 1
    ensures SpliceOutputs(all, |before|, |own| == 1, o) == before + ValueOf(o) + after
  {
    assert all[..|before|] == before;
    assert all[|before| + |own|..] == after;
  }

  lemma IdsSplice(outs: seq<Outcome>, i: nat, o: Outcome)
    ensures var ids := if i < |outs| then IdsOf(outs)[i := o.graph] else IdsOf(outs) + [o.graph];
      ids == IdsOf(Padded(outs, i)[i := o]) <==> i <= |outs|
  {
    var ids := if i < |outs| then IdsOf(outs)[i := o.graph] else IdsOf(outs) + [o.graph];
    var now := IdsOf(Padded(outs, i)[i := o]);
    assert i > |outs| ==> |ids| != |now|;
  }

  /** The members' outcomes after some re-runs, one after the other; a place beyond the members is an error. */
  function Rerun(outs: seq<Outcome>, reruns: seq<(nat, Outcome)>): (r: Option<seq<Outcome>>)
    ensures r.Some? ==> |r.value| == |outs|
  {
    if reruns == [] then Some(outs)
    else
      var before := Rerun(outs, reruns[..|reruns| - 1]);
      var r := reruns[|reruns| - 1];
      if before.Some? && r.0 < |outs| then Some(before.value[r.0 := r.1]) else None
  }

  /** The first `k` places are members'. */
  ghost predicate Within(reruns: seq<(nat, Outcome)>, k: nat, members: nat)
    requires k <= |reruns|
  {
    forall j | 0 <= j < k :: reruns[j].0 < members
  }

  lemma RerunOneMore(outs: seq<Outcome>, reruns: seq<(nat, Outcome)>, k: nat)
    requires k < |reruns| && Rerun(outs, reruns[..k]).Some? && reruns[k].0 < |outs|
    ensures Rerun(outs, reruns[..k + 1]) == Some(Rerun(outs, reruns[..k]).value[reruns[k].0 := reruns[k].1])
  {
    assert reruns[..k + 1][..k] == reruns[..k];
  }

  /** Without an error each member's outcome is that of its latest re-run, or its first one where there is none. */
  lemma {:induction false} LatestOutcomes(outs: seq<Outcome>, reruns: seq<(nat, Outcome)>)
    requires Rerun(outs, reruns).Some?
    ensures forall k | 0 <= k < |reruns| && NoneAfter(reruns, k) :: reruns[k].0 < |outs| && Rerun(outs, reruns).value[reruns[k].0] == reruns[k].1
    ensures forall i | 0 <= i < |outs| && (forall k | 0 <= k < |reruns| :: reruns[k].0 != i) :: Rerun(outs, reruns).value[i] == outs[i]
  {
    if reruns != [] {
      var rest := reruns[..|reruns| - 1];
      LatestOutcomes(outs, rest);
      var latest := Rerun(outs, reruns).value;
      forall k | 0 <= k < |reruns| && NoneAfter(reruns, k) ensures reruns[k].0 < |outs| && latest[reruns[k].0] == reruns[k].1 {
        if k < |rest| {
          assert reruns[|rest|].0 != reruns[k].0;
          assert NoneAfter(rest, k) && rest[k] == reruns[k];
        }
      }
    }
  }

  /** The `k`th re-run is the last of its place. */
  ghost predicate NoneAfter(reruns: seq<(nat, Outcome)>, k: nat)
    requires k < |reruns|
  {
    forall l | k < l < |reruns| :: reruns[l].0 != reruns[k].0
  }

  /** A map's place on the shared blackboard. */
  class Board {
    var carriers: Carriers
    var status: Status

    constructor ()
      ensures carriers == FanOut([]) && status == StatusCompleted
    {
      carriers, status := FanOut([]), StatusCompleted;
    }

    /** The full fan-out: each member in turn; a stopped one leaves no output and stops no other. */
    method RunAll(members: seq<Value>, run: (nat, Value) -> Outcome)
      modifies this
      ensures carriers == FanOut(OutcomesOf(members, run)) && status == StatusOf(carriers.mask)
    {
      var outputs, ids, mask, origins := [], [], [], [];
      ghost var outs := OutcomesOf(members, run);
      for i := 0 to |members|
        invariant outputs == ValuesOf(outs[..i]) && ids == IdsOf(outs[..i])
        invariant mask == MaskOf(outs[..i]) && origins == OriginsOf(outs[..i])
      {
        var outcome := run(i, members[i]);
        TakeOneMore(outs, i);
        assert outs[..i + 1][..i] == outs[..i];
        if outcome.Completed? { outputs := outputs + [outcome.value]; }
        ids := ids + [outcome.graph];
        mask := mask + [outcome.Completed?];
        origins := origins + [OriginIn(outcome)];
      }
      assert outs[..|members|] == outs;
      carriers := Carriers(outputs, ids, mask, origins, CollectionOrigin(origins));
      status := if AllTrue(mask) then StatusCompleted else StatusStopped;
    }

    /** One member again, spliced into what was retained; refused, with nothing changed, when the retained lists
        disagree. */
    method RerunOne(i: nat, outcome: Outcome) returns (ok: bool)
      modifies this
      ensures ok == Splice(old(carriers), i, outcome).Some?
      ensures ok ==> carriers == Splice(old(carriers), i, outcome).value && status == StatusOf(carriers.mask)
      ensures !ok ==> carriers == old(carriers) && status == old(status)
    {
      var mask := PadMask(carriers.mask, i);
      if |carriers.outputs| != CountTrue(mask) { return false; }
      CountUpTo(mask, i);
      var pos, was := CountTrue(mask[..i]), mask[i];
      var existing := carriers.outputs;
      if outcome.Completed? && was {
        existing := existing[pos := outcome.value];
      } else if outcome.Completed? {
        existing := existing[..pos] + [outcome.value] + existing[pos..];
      } else if was {
        existing := existing[..pos] + existing[pos + 1..];
      }
      assert existing == SpliceOutputs(carriers.outputs, pos, was, outcome);
      mask := mask[i := outcome.Completed?];
      var ids := if i < |carriers.ids| then carriers.ids[i := outcome.graph] else carriers.ids + [outcome.graph];
      var origins := PadOrigins(carriers.origins, i)[i := OriginIn(outcome)];
      carriers := Carriers(existing, ids, mask, origins, CollectionOrigin(origins));
      status := if AllTrue(mask) then StatusCompleted else StatusStopped;
      ok := true;
    }
  }

  function OutcomesOf(members: seq<Value>, run: (nat, Value) -> Outcome): (r: seq<Outcome>)
    ensures |r| == |members| && forall i | 0 <= i < |members| :: r[i] == run(i, members[i])
  {
    seq(|members|, i requires 0 <= i < |members| => run(i, members[i]))
  }

  /** What the board has after `k` re-runs: one fan-out over the outcomes then. */
  ghost predicate InStep(outs: seq<Outcome>, reruns: seq<(nat, Outcome)>, k: nat, carriers: Carriers)
    requires k <= |reruns|
  {
    Rerun(outs, reruns[..k]).Some? && carriers == FanOut(Rerun(outs, reruns[..k]).value) && Within(reruns, k, |outs|)
  }

  lemma InStepMore(outs: seq<Outcome>, reruns: seq<(nat, Outcome)>, k: nat, carriers: Carriers)
    requires k < |reruns| && InStep(outs, reruns, k, carriers) && reruns[k].0 < |outs|
    ensures var spliced := Splice(carriers, reruns[k].0, reruns[k].1); spliced.Some? && InStep(outs, reruns, k + 1, spliced.value)
  {
    var before := Rerun(outs, reruns[..k]).value;
    RerunOneMore(outs, reruns, k);
    assert Padded(before, reruns[k].0) == before;
    SpliceIsRecomputation(before, reruns[k].0, reruns[k].1);
  }

  /** A fan-out and then re-runs, up to the first of a place that is no member's, which is an error: the carriers are
      those of one fan-out over the latest outcomes. */
  method RunThenRerun(members: seq<Value>, run: (nat, Value) -> Outcome, reruns: seq<(nat, Outcome)>)
    returns (board: Board, done: nat)
    ensures done <= |reruns| && Within(reruns, done, |members|) && (done < |reruns| ==> reruns[done].0 >= |members|)
    ensures done == |reruns| <==> Within(reruns, |reruns|, |members|)
    ensures var latest := Rerun(OutcomesOf(members, run), reruns[..done]);
      fresh(board) && latest.Some? && board.carriers == FanOut(latest.value)
    ensures board.status == StatusOf(board.carriers.mask)
    ensures var latest := Rerun(OutcomesOf(members, run), reruns[..done]);
      latest.Some? && (board.status == StatusCompleted <==> forall o | o in latest.value :: o.Completed?)
  {
    board := new Board();
    board.RunAll(members, run);
    ghost var outs := OutcomesOf(members, run);
    done := 0;
    while done < |reruns|
      invariant done <= |reruns| && fresh(board)
      invariant InStep(outs, reruns, done, board.carriers) && board.status == StatusOf(board.carriers.mask)
    {
      StatusSays(Rerun(outs, reruns[..done]).value);
      if reruns[done].0 >= |members| { return; }
      InStepMore(outs, reruns, done, board.carriers);
      var ok := board.RerunOne(reruns[done].0, reruns[done].1);
      done := done + 1;
    }
    StatusSays(Rerun(outs, reruns[..done]).value);
  }

  lemma StatusSays(outs: seq<Outcome>)
    ensures StatusOf(MaskOf(outs)) == StatusCompleted <==> forall o | o in outs :: o.Completed?
  {
    forall i | 0 <= i < |outs| ensures MaskOf(outs)[i] in MaskOf(outs) && outs[i] in outs {}
  }

  // ---- the fold ----

  datatype Gate =
    | Dispatch(domain: seq<Value>)
    | PartialDomain
    | EmptyDomain
    | OutOfStep

  /** What the fold decides before any reducer runs; a fold without a map before it has no mask. */
  function FoldGate(domain: Option<seq<Value>>, mask: Option<seq<bool>>): Gate {
    var values := if domain.Some? then domain.value else [];
    if mask.Some? && |values| != CountTrue(mask.value) then OutOfStep
    else if mask.Some? && !AllTrue(mask.value) then PartialDomain
    else if values == [] then EmptyDomain
    else Dispatch(values)
  }

  /** After a map and any re-runs the fold's carriers are in step, and its reducer runs exactly when there are members
      and every one of them completed, and then on every member's value in member order. */
  lemma FoldNeedsEveryMember(outs: seq<Outcome>)
    ensures var gate := FoldGate(Some(FanOut(outs).outputs), Some(FanOut(outs).mask));
      && gate != OutOfStep
      && (gate.Dispatch? <==> outs != [] && forall i | 0 <= i < |outs| :: outs[i].Completed?)
      && (gate.Dispatch? ==> |gate.domain| == |outs| && forall i | 0 <= i < |outs| :: outs[i].Completed? && gate.domain[i] == outs[i].value)
      && (gate.PartialDomain? <==> exists i :: 0 <= i < |outs| && outs[i].Stopped?)
      && (gate.EmptyDomain? <==> outs == [])
  {
    CountIsLength(outs);
    var mask := MaskOf(outs);
    if AllTrue(mask) {
      forall i | 0 <= i < |outs| ensures outs[i].Completed? { assert mask[i] in mask; }
      AllValues(outs);
    } else {
      var c :| c in mask && !c;
      var i :| 0 <= i < |mask| && mask[i] == c;
      assert outs[i].Stopped?;
    }
  }

  /** A fold without a map before it decides as one after a map whose members all completed; and lists that do not agree
      are an error before anything else is looked at. */
  lemma FoldWithoutAMap(domain: Option<seq<Value>>, mask: seq<bool>)
    ensures var values := if domain.Some? then domain.value else [];
      && FoldGate(domain, None) == FoldGate(Some(values), Some(seq(|values|, k => true)))
      && (FoldGate(domain, None).Dispatch? <==> domain.Some? && domain.value != [])
      && (FoldGate(domain, Some(mask)).OutOfStep? <==> CountTrue(mask) != |values|)
  {
    AllCount(if domain.Some? then |domain.value| else 0);
  }

  lemma {:induction false} AllCount(n: nat)
    ensures CountTrue(seq(n, k => true)) == n
  {
    if n > 0 {
      AllCount(n - 1);
      assert seq(n, k => true)[..n - 1] == seq(n - 1, k => true);
    }
  }

  lemma {:induction false} AllValues(outs: seq<Outcome>)
    requires forall i | 0 <= i < |outs| :: outs[i].Completed?
    ensures |ValuesOf(outs)| == |outs| && forall i | 0 <= i < |outs| :: ValuesOf(outs)[i] == outs[i].value
  {
    if outs != [] { AllValues(outs[..|outs| - 1]); }
  }

  // ---- one flat member's attempts ----

  const MEMBER_RETRY_CAP: nat := 2

  datatype Attempt =
    | NoRoute(graph: Option<Iri>)
    | Succeeded(value: Value, graph: Option<Iri>, origin: Origin)
    | Failed(graph: Option<Iri>, askedForInput: bool, cancelled: bool, retryable: bool)
  {
    /** Neither an answer, nor a question, nor a decision: only this may be tried again. */
    predicate MayRetry() { Failed? && !askedForInput && !cancelled && retryable }

    function Ends(): (o: Outcome)
      ensures (o.Completed? <==> Succeeded?) && o.graph == graph
      ensures o.Completed? ==> o.value == value && o.origin == origin
    {
      match this
      case NoRoute(graph) => Stopped(graph)
      case Succeeded(value, graph, origin) => Completed(value, graph, origin)
      case Failed(graph, _, _, _) => Stopped(graph)
    }
  }

  /** The flat member's retry loop: it goes on only past attempts that may be retried, at most to the cap, and the
      outcome and the graph kept are the last attempt's. */
  method RunFlatMember(attempts: nat -> Attempt) returns (outcome: Outcome, tried: nat)
    ensures 1 <= tried <= MEMBER_RETRY_CAP && outcome == attempts(tried - 1).Ends()
    ensures forall r | 0 <= r < tried - 1 :: attempts(r).MayRetry()
    ensures tried < MEMBER_RETRY_CAP ==> !attempts(tried - 1).MayRetry()
    ensures tried <= 2 && (tried == 2 <==>
      match attempts(0)
      case Failed(_, asked, cancelled, retryable) => !asked && !cancelled && retryable
      case _ => false)
  {
    tried := 0;
    outcome := Stopped(None);
    while tried < MEMBER_RETRY_CAP
      invariant tried <= MEMBER_RETRY_CAP
      invariant forall r | 0 <= r < tried :: attempts(r).MayRetry()
      invariant tried > 0 ==> outcome == attempts(tried - 1).Ends()
    {
      var result := attempts(tried);
      outcome := result.Ends();
      tried := tried + 1;
      if !result.MayRetry() { return; }
    }
  }
}
