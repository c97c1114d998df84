/** The substitutes of one model-made value, gone through one by one. */
module Tallies {
  import opened Identifiers
  import opened Episodes
  import opened Substitutes

  datatype Reason =
    | LineageGap(gap: Gap)
    | NotYetExcisable | SubstituteDisagrees | NoSubstituteAgreed | NotInTheGroundingGraph
    | InterpretedWithTheModel | InterpretationNotRecorded | ReadsTheMentalModel | ReadsNotRecorded
    | ConsumedAnOriginRecord | ModelAnswerNotExcisable | LineageLoops

  datatype Rederivation = Rederivation(reader: Iri, runs: seq<SubstituteRun>, roles: seq<(Iri, set<Iri>)>)

  /** `_Partial`: what a proof has come to so far. */
  datatype Partial = Partial(notProven: set<(Ref, Reason)>, rederived: map<Ref, Rederivation>, premises: set<Ref>, roles: set<Iri>)
  {
    function Add(other: Partial): Partial {
      Partial(notProven + other.notProven, rederived + other.rederived, premises + other.premises, roles + other.roles)
    }

    function Stop(ref: Ref, reason: Reason): Partial { this.(notProven := notProven + {(ref, reason)}) }
  }

  const NOTHING := Partial({}, map[], {}, {})

  /** A value stopped for each of some reasons. */
  function Stopped(x: Ref, ks: set<Reason>): set<(Ref, Reason)> { set k | k in ks :: (x, k) }

  /** One substitute: passed over before its inputs are looked into, or, once they are proven, run. */
  datatype Case = Passed(substitute: Decl, failure: Failure) | Judged(substitute: Decl, outcome: SubstituteRun)
  {
    predicate Agrees() { Judged? && outcome.agrees.Some? && outcome.agrees.value }
    predicate Disagrees() { Judged? && outcome.agrees.Some? && !outcome.agrees.value }
    predicate Missing() { Passed? && failure == InputsNotInTheGraph }

    /** No verdict but by a run on proven inputs; otherwise why there is none. */
    function Run(proven: bool): (r: SubstituteRun)
      ensures Judged? && proven ==> r == outcome
      ensures !(Judged? && proven) ==> r.substitute == substitute.iri && r.agrees.None? && r.value.None?
      ensures !(Judged? && proven) ==> r.failure == Some(if Passed? then failure else InputsNotProven)
    {
      if Passed? then SubstituteRun(substitute.iri, None, None, Some(failure))
      else if !proven then SubstituteRun(substitute.iri, None, None, Some(InputsNotProven))
      else outcome
    }
  }

  predicate SomeJudged(cs: seq<Case>) { exists c :: c in cs && c.Judged? }
  predicate SomeMissing(cs: seq<Case>) { exists c :: c in cs && c.Missing() }
  predicate SomeAgrees(cs: seq<Case>) { exists c :: c in cs && c.Agrees() }
  predicate SomeDisagrees(cs: seq<Case>) { exists c :: c in cs && c.Disagrees() }

  /** What the substitutes that ran say against the value: one disagreement is enough, one agreement needed. */
  function VerdictStops(cs: seq<Case>): set<Reason> {
    if SomeDisagrees(cs) then {SubstituteDisagrees} else if SomeAgrees(cs) then {} else {NoSubstituteAgreed}
  }

  /** The roles each agreeing substitute declares now. */
  function AgreedRoles(cs: seq<Case>): seq<(Iri, set<Iri>)> {
    if cs == [] then []
    else
      var c := cs[|cs| - 1];
      AgreedRoles(cs[..|cs| - 1]) + if c.Agrees() then [(c.substitute.iri, c.substitute.readsRoles)] else []
  }

  function RunsOf(cs: seq<Case>, proven: bool): (r: seq<SubstituteRun>) {
    if cs == [] then [] else RunsOf(cs[..|cs| - 1], proven) + [cs[|cs| - 1].Run(proven)]
  }

  function RolesIn(roles: seq<(Iri, set<Iri>)>): set<Iri> { set r, k | r in roles && k in r.1 :: k }

  // ---- the tally ----

  datatype Tally = Tally(
    missing: bool, runs: seq<SubstituteRun>, roles: seq<(Iri, set<Iri>)>,
    agreed: Option<Partial>, blocked: Option<Partial>, disagreed: bool)

  const FRESH := Tally(false, [], [], None, None, false)

  function Joined(o: Option<Partial>, p: Partial): Partial { if o.Some? then o.value.Add(p) else p }

  /** A substitute passed over. */
  function AfterPass(t: Tally, c: Case): Tally
    requires c.Passed?
  {
    t.(missing := t.missing || c.Missing(), runs := t.runs + [c.Run(false)])
  }

  /** A substitute whose inputs are not proven. */
  function AfterBlock(t: Tally, c: Case, inputs: Partial): Tally
    requires c.Judged?
  {
    t.(blocked := Some(Joined(t.blocked, inputs)), runs := t.runs + [c.Run(false)])
  }

  /** A substitute that ran. */
  function AfterRun(t: Tally, c: Case, inputs: Partial): Tally
    requires c.Judged?
  {
    var ran := t.(runs := t.runs + [c.outcome]);
    if c.Agrees() then
      ran.(roles := t.roles + [(c.substitute.iri, c.substitute.readsRoles)],
           agreed := Some(Joined(t.agreed, inputs.(roles := inputs.roles + c.substitute.readsRoles))))
    else if c.Disagrees() then ran.(disagreed := true)
    else ran
  }

  /** Where the tally stands after `cs`: the inputs are proven or not, and `q` is what proving them reports. */
  ghost predicate Fits(cs: seq<Case>, proven: bool, q: Partial, t: Tally) {
    && t.missing == SomeMissing(cs) && t.runs == RunsOf(cs, proven)
    && (proven ==>
         && t.blocked.None? && t.roles == AgreedRoles(cs)
         && t.disagreed == SomeDisagrees(cs) && t.agreed.Some? == SomeAgrees(cs)
         && (t.agreed.Some? ==> t.agreed.value == q.(roles := q.roles + RolesIn(t.roles))))
    && (!proven ==> t.agreed.None? && !t.disagreed && t.blocked == if SomeJudged(cs) then Some(q) else None)
  }

  lemma OneMoreCase(cs: seq<Case>, c: Case, proven: bool)
    ensures RunsOf(cs + [c], proven) == RunsOf(cs, proven) + [c.Run(proven)]
    ensures AgreedRoles(cs + [c]) == AgreedRoles(cs) + if c.Agrees() then [(c.substitute.iri, c.substitute.readsRoles)] else []
    ensures SomeJudged(cs + [c]) <==> SomeJudged(cs) || c.Judged?
    ensures SomeMissing(cs + [c]) <==> SomeMissing(cs) || c.Missing()
    ensures SomeAgrees(cs + [c]) <==> SomeAgrees(cs) || c.Agrees()
    ensures SomeDisagrees(cs + [c]) <==> SomeDisagrees(cs) || c.Disagrees()
  {
    assert (cs + [c])[..|cs|] == cs;
    assert forall u :: u in cs + [c] <==> u in cs || u == c;
  }

  lemma PassFits(cs: seq<Case>, proven: bool, q: Partial, t: Tally, c: Case)
    requires Fits(cs, proven, q, t) && c.Passed?
    ensures Fits(cs + [c], proven, q, AfterPass(t, c))
  {
    OneMoreCase(cs, c, proven);
  }

  lemma BlockFits(cs: seq<Case>, q: Partial, t: Tally, c: Case, inputs: Partial)
    requires Fits(cs, false, q, t) && c.Judged?
    ensures Fits(cs + [c], false, Joined(t.blocked, inputs), AfterBlock(t, c, inputs))
  {
    OneMoreCase(cs, c, false);
  }

  lemma RunFits(cs: seq<Case>, q: Partial, t: Tally, c: Case, inputs: Partial)
    requires Fits(cs, true, q, t) && c.Judged? && (SomeJudged(cs) ==> q == inputs)
    ensures Fits(cs + [c], true, inputs, AfterRun(t, c, inputs))
  {
    OneMoreCase(cs, c, true);
    RolesInMore(t.roles, (c.substitute.iri, c.substitute.readsRoles));
    assert SomeAgrees(cs) ==> SomeJudged(cs);
    AddSelf(inputs);
    var more := inputs.roles + c.substitute.readsRoles;
    if c.Agrees() && t.agreed.None? { assert AgreedRoles(cs) == [] by { NoneAgreed(cs); } }
  }

  lemma {:induction false} NoneAgreed(cs: seq<Case>)
    requires !SomeAgrees(cs)
    ensures AgreedRoles(cs) == []
  {
    if cs != [] {
      var rest := cs[..|cs| - 1];
      assert forall c | c in rest :: c in cs;
      NoneAgreed(rest);
      assert cs[|cs| - 1] in cs;
    }
  }

  lemma AddSelf(p: Partial)
    ensures p.Add(p) == p
  {}

  lemma RolesInMore(roles: seq<(Iri, set<Iri>)>, r: (Iri, set<Iri>))
    ensures RolesIn(roles + [r]) == RolesIn(roles) + r.1
  {
    assert forall u :: u in roles + [r] <==> u in roles || u == r;
    forall k | k in r.1 ensures k in RolesIn(roles + [r]) { assert r in roles + [r]; }
    forall k | k in RolesIn(roles) ensures k in RolesIn(roles + [r]) {
      var u :| u in roles && k in u.1;
      assert u in roles + [r];
    }
  }

  /** What `_rederive` makes of the tally. */
  function Concluded(x: Ref, reader: Iri, t: Tally): Partial {
    var out := if t.missing then NOTHING.Stop(x, NotInTheGroundingGraph) else NOTHING;
    var done :=
      if t.disagreed then out.Stop(x, SubstituteDisagrees)
      else if t.agreed.Some? then out.Add(t.agreed.value)
      else if t.blocked.Some? then out.Add(t.blocked.value)
      else out.Stop(x, NoSubstituteAgreed);
    done.(rederived := done.rederived[x := Rederivation(reader, t.runs, t.roles)])
  }
}
