/** The prover: a recursion over the lineage with a memo and a cut where it meets itself. */
module Provers {
  import opened Identifiers
  import opened Graphs
  import opened Episodes
  import opened CopyClasses
  import opened Lineages
  import opened Substitutes
  import opened Tallies
  import opened Folding
  import opened Proofs
  import opened ProofSteps

  // ---- from the tally to the answer ----

  function MissingStops(cs: seq<Case>): set<Reason> { if SomeMissing(cs) then {NotInTheGroundingGraph} else {} }

  lemma ConcludedNone(x: Ref, reader: Iri, cs: seq<Case>, proven: bool, q: Partial, t: Tally)
    requires Fits(cs, proven, q, t) && !SomeJudged(cs)
    ensures Concluded(x, reader, t).notProven == Stopped(x, {NoSubstituteAgreed} + MissingStops(cs))
  {
    assert SomeAgrees(cs) ==> SomeJudged(cs);
    assert SomeDisagrees(cs) ==> SomeJudged(cs);
  }

  lemma ConcludedBlocked(x: Ref, reader: Iri, cs: seq<Case>, q: Partial, t: Tally)
    requires Fits(cs, false, q, t) && SomeJudged(cs)
    ensures Concluded(x, reader, t).notProven == q.notProven + Stopped(x, MissingStops(cs))
  {}

  lemma ConcludedRun(x: Ref, reader: Iri, cs: seq<Case>, q: Partial, t: Tally)
    requires Fits(cs, true, q, t) && SomeJudged(cs) && q.notProven == {}
    ensures Concluded(x, reader, t).notProven == Stopped(x, VerdictStops(cs) + MissingStops(cs))
    ensures VerdictStops(cs) == {} && !SomeMissing(cs) ==>
      Concluded(x, reader, t) == Partial({}, q.rederived[x := Rederivation(reader, RunsOf(cs, true), AgreedRoles(cs))],
        q.premises, RolesIn(AgreedRoles(cs)) + q.roles)
  {
    if VerdictStops(cs) == {} && !SomeMissing(cs) {
      assert NOTHING.Add(t.agreed.value) == t.agreed.value;
      assert q.roles + RolesIn(t.roles) == RolesIn(t.roles) + q.roles;
    }
  }

  function Gaps(e: Evidence, x: Ref): set<Reason>
    requires e.Here(x)
  {
    set g | g in e.l.own[x].gaps :: LineageGap(g)
  }

  lemma RereadStopsAre(e: Evidence, x: Ref)
    requires e.Here(x) && e.ModelMade(x) && e.CasesOf(x) != []
    ensures e.LocalStops(x) == Gaps(e, x) + MissingStops(e.CasesOf(x)) + if SomeJudged(e.CasesOf(x)) then {} else {NoSubstituteAgreed}
    ensures SomeJudged(e.CasesOf(x)) ==> e.RunStops(x) == VerdictStops(e.CasesOf(x))
  {}

  /** A model-made value none of whose substitutes can be run. */
  lemma NoneAnswers(e: Evidence, x: Ref, proven: bool, q: Partial, t: Tally)
    requires e.Here(x) && e.ModelMade(x) && e.CasesOf(x) != [] && !SomeJudged(e.CasesOf(x))
    requires Fits(e.CasesOf(x), proven, q, t)
    ensures Answered(e, {x}, NOTHING.(notProven := Stopped(x, Gaps(e, x))).Add(Concluded(x, e.ReaderOf(x), t)))
  {
    var p := NOTHING.(notProven := Stopped(x, Gaps(e, x))).Add(Concluded(x, e.ReaderOf(x), t));
    RereadStopsAre(e, x);
    ConcludedNone(x, e.ReaderOf(x), e.CasesOf(x), proven, q, t);
    NoneViableAnswers(e, x, p);
    Unfold(e, {x}, p);
  }

  /** A model-made value whose needs are not proven. */
  lemma BlockedAnswers(e: Evidence, x: Ref, q: Partial, t: Tally)
    requires e.Here(x) && e.ModelMade(x) && e.CasesOf(x) != [] && SomeJudged(e.CasesOf(x))
    requires Fits(e.CasesOf(x), false, q, t) && q.notProven != {} && Answered(e, e.Deps(x), q)
    ensures Answered(e, {x}, NOTHING.(notProven := Stopped(x, Gaps(e, x))).Add(Concluded(x, e.ReaderOf(x), t)))
  {
    var p := NOTHING.(notProven := Stopped(x, Gaps(e, x))).Add(Concluded(x, e.ReaderOf(x), t));
    PartIsMade(x, Gaps(e, x), e.ReaderOf(x), t);
    BlockedPart(e, x, q, t, p);
    Unfold(e, e.Deps(x), q);
    RereadAnswers(e, x, q, {}, p);
    Unfold(e, {x}, p);
  }

  /** What a re-derivation adds to the gaps of a value's lineage. */
  ghost predicate PartIs(x: Ref, gaps: set<Reason>, reader: Iri, t: Tally, p: Partial) {
    forall key {:trigger Asked(key)} :: Asked(key) ==> p == NOTHING.(notProven := Stopped(x, gaps)).Add(Concluded(x, reader, t))
  }

  lemma PartIsMade(x: Ref, gaps: set<Reason>, reader: Iri, t: Tally)
    ensures PartIs(x, gaps, reader, t, NOTHING.(notProven := Stopped(x, gaps)).Add(Concluded(x, reader, t)))
  {}


  lemma JudgedStopsAre(e: Evidence, x: Ref)
    requires e.Here(x) && e.ModelMade(x) && e.CasesOf(x) != [] && SomeJudged(e.CasesOf(x))
    ensures e.LocalStops(x) == Gaps(e, x) + MissingStops(e.CasesOf(x)) && e.RunStops(x) == VerdictStops(e.CasesOf(x))
  {
    RereadStopsAre(e, x);
  }

  lemma BlockedPart(e: Evidence, x: Ref, q: Partial, t: Tally, p: Partial)
    requires e.Here(x) && e.ModelMade(x) && e.CasesOf(x) != [] && SomeJudged(e.CasesOf(x))
    requires Fits(e.CasesOf(x), false, q, t) && q.notProven != {}
    requires PartIs(x, Gaps(e, x), e.ReaderOf(x), t, p)
    ensures RereadPart(e, x, e.LocalStops(x), q, {}, p)
  {
    JudgedStopsAre(e, x);
    BlockedAdds(x, Gaps(e, x), e.ReaderOf(x), e.CasesOf(x), VerdictStops(e.CasesOf(x)), q, t, p);
  }

  lemma BlockedAdds(x: Ref, gaps: set<Reason>, reader: Iri, cs: seq<Case>, run: set<Reason>, q: Partial, t: Tally, p: Partial)
    requires Fits(cs, false, q, t) && SomeJudged(cs) && q.notProven != {}
    requires PartIs(x, gaps, reader, t, p)
    ensures StopsAre(x, gaps + MissingStops(cs), run, q.notProven, p.notProven)
  {
    assert Asked(0);
    ConcludedBlocked(x, reader, cs, q, t);
    StopsAdded(x, gaps + MissingStops(cs), run, q.notProven);
    assert p.notProven == q.notProven + Stopped(x, gaps + MissingStops(cs)) + {};
  }

  /** A model-made value whose needs are proven and whose substitutes ran. */
  lemma RunAnswers(e: Evidence, x: Ref, q: Partial, t: Tally)
    requires e.Here(x) && e.ModelMade(x) && e.CasesOf(x) != [] && SomeJudged(e.CasesOf(x))
    requires Fits(e.CasesOf(x), true, q, t) && q.notProven == {} && Answered(e, e.Deps(x), q)
    ensures Answered(e, {x}, NOTHING.(notProven := Stopped(x, Gaps(e, x))).Add(Concluded(x, e.ReaderOf(x), t)))
  {
    var c := Concluded(x, e.ReaderOf(x), t);
    var p := NOTHING.(notProven := Stopped(x, Gaps(e, x))).Add(c);
    PartIsMade(x, Gaps(e, x), e.ReaderOf(x), t);
    RunPart(e, x, q, t, p);
    Unfold(e, e.Deps(x), q);
    RereadAnswers(e, x, q, RolesIn(AgreedRoles(e.CasesOf(x))), p);
    Unfold(e, {x}, p);
  }

  lemma RunPart(e: Evidence, x: Ref, q: Partial, t: Tally, p: Partial)
    requires e.Here(x) && e.ModelMade(x) && e.CasesOf(x) != [] && SomeJudged(e.CasesOf(x))
    requires Fits(e.CasesOf(x), true, q, t) && q.notProven == {}
    requires PartIs(x, Gaps(e, x), e.ReaderOf(x), t, p)
    ensures RereadPart(e, x, e.LocalStops(x), q, RolesIn(AgreedRoles(e.CasesOf(x))), p)
  {
    JudgedStopsAre(e, x);
    var gaps, cs := Gaps(e, x), e.CasesOf(x);
    RunAdds(x, gaps, e.ReaderOf(x), cs, q, t, p);
    RunPartFits(e, x, gaps, cs, q, p);
  }

  lemma RunPartFits(e: Evidence, x: Ref, gaps: set<Reason>, cs: seq<Case>, q: Partial, p: Partial)
    requires e.Here(x) && e.ModelMade(x) && cs == e.CasesOf(x) && q.notProven == {}
    requires e.LocalStops(x) == gaps + MissingStops(cs) && e.RunStops(x) == VerdictStops(cs)
    requires StopsAre(x, gaps + MissingStops(cs), VerdictStops(cs), q.notProven, p.notProven)
    requires gaps + MissingStops(cs) == {} && VerdictStops(cs) == {} ==>
      && p.rederived == q.rederived[x := Rederivation(e.ReaderOf(x), RunsOf(cs, true), AgreedRoles(cs))]
      && p.premises == q.premises && p.roles == RolesIn(AgreedRoles(cs)) + q.roles
    ensures RereadPart(e, x, e.LocalStops(x), q, RolesIn(AgreedRoles(cs)), p)
  {}

  lemma RunAdds(x: Ref, gaps: set<Reason>, reader: Iri, cs: seq<Case>, q: Partial, t: Tally, p: Partial)
    requires Fits(cs, true, q, t) && SomeJudged(cs) && q.notProven == {}
    requires PartIs(x, gaps, reader, t, p)
    ensures StopsAre(x, gaps + MissingStops(cs), VerdictStops(cs), q.notProven, p.notProven)
    ensures gaps + MissingStops(cs) == {} && VerdictStops(cs) == {} ==>
      && p.rederived == q.rederived[x := Rederivation(reader, RunsOf(cs, true), AgreedRoles(cs))]
      && p.premises == q.premises && p.roles == RolesIn(AgreedRoles(cs)) + q.roles
  {
    assert Asked(0);
    var own := gaps + MissingStops(cs);
    ConcludedRun(x, reader, cs, q, t);
    StopsAdded(x, own, VerdictStops(cs), {});
    assert p.notProven == {} + Stopped(x, own) + Stopped(x, VerdictStops(cs));
    if own == {} && VerdictStops(cs) == {} {
      assert MissingStops(cs) <= own;
      var c := Concluded(x, reader, t);
      assert map[] + c.rederived == c.rederived && {} + c.premises == c.premises && {} + c.roles == c.roles;
    }
  }

  lemma NoSubstitutesAnswers(e: Evidence, x: Ref, p: Partial)
    requires e.Here(x) && e.ModelMade(x) && e.SubstitutesOf(x) == []
    requires p.notProven == Stopped(x, Gaps(e, x) + {NotYetExcisable})
    ensures Answered(e, {x}, p)
  {
    assert e.CasesOf(x) == [];
    NoneViableAnswers(e, x, p);
    Unfold(e, {x}, p);
  }

  // ---- the steps, on folded answers ----

  lemma NothingAnswered(e: Evidence)
    ensures Answered(e, {}, NOTHING)
  {
    AnswersNothing(e);
  }

  lemma UnionAnswered(e: Evidence, s: set<Ref>, t: set<Ref>, p: Partial, q: Partial)
    requires Answered(e, s, p) && Answered(e, t, q)
    ensures Answered(e, s + t, p.Add(q))
  {
    Unfold(e, s, p);
    Unfold(e, t, q);
    AnswersUnion(e, s, t, p, q);
  }

  lemma OutsideAnswered(e: Evidence, ref: Ref)
    requires !e.Here(ref)
    ensures Answered(e, {ref}, NOTHING)
  {
    OutsideAnswers(e, ref);
  }

  lemma LoopAnswered(e: Evidence, ref: Ref)
    requires e.Here(ref) && e.OnLoop(ref)
    ensures Answered(e, {ref}, NOTHING.Stop(ref, LineageLoops))
  {
    LoopAnswers(e, ref);
  }

  lemma PlainAnswered(e: Evidence, ref: Ref, own: Partial, q: Partial)
    requires e.Here(ref) && !e.ModelMade(ref) && OwnPart(e, ref, own) && Answered(e, e.Deps(ref), q)
    ensures Answered(e, {ref}, own.Add(q))
  {
    Unfold(e, e.Deps(ref), q);
    PlainAnswers(e, ref, own, q);
  }

  /** Whatever a prover knew already or was in the middle of, and in whatever order it went. */
  lemma OneVerdictAnswered(e: Evidence, sources: set<Ref>, p: Partial, q: Partial)
    requires Answered(e, sources, p) && Answered(e, sources, q)
    ensures p.notProven == {} <==> q.notProven == {}
    ensures p.notProven == {} ==> p == q
    ensures e.LoopFree(sources) ==> p.notProven == q.notProven
  {
    Unfold(e, sources, p);
    Unfold(e, sources, q);
    OneVerdict(e, sources, p, q);
  }

  // ---- values in progress ----

  /** Every value in progress rests on `x`. */
  ghost predicate AllAbove(e: Evidence, busy: set<Ref>, x: Ref) {
    forall b | b in busy :: ReachesBeyond(e.Needs(), b, x)
  }

  /** `x` is in progress, and every other value in progress rests on it. */
  ghost predicate AllAt(e: Evidence, busy: set<Ref>, x: Ref) {
    x in busy && e.Here(x) && AllAbove(e, busy - {x}, x)
  }

  lemma BelowAll(e: Evidence, busy: set<Ref>, x: Ref, y: Ref)
    requires AllAt(e, busy, x) && y in e.Deps(x)
    ensures AllAbove(e, busy, y)
  {
    var g := e.Needs();
    NeedsNext(e, x);
    assert Reaches(g, y, y);
    forall b | b in busy ensures ReachesBeyond(g, b, y) {
      if b != x {
        assert b in busy - {x};
        BeyondStep(g, b, x, y);
      }
    }
  }

  lemma BeyondStep(g: Graph<Ref>, b: Ref, x: Ref, y: Ref)
    requires ReachesBeyond(g, b, x) && y in Next(g, x)
    ensures ReachesBeyond(g, b, y)
  {
    var z :| z in Next(g, b) && Reaches(g, z, x);
    ReachesStep(g, z, x, y);
  }

  ghost predicate Memoised(e: Evidence, done: map<Ref, Partial>) {
    forall x | x in done :: Answered(e, {x}, done[x])
  }

  function RefSet(refs: seq<Ref>): set<Ref> { set r | r in refs }

  lemma OneMoreRef(refs: seq<Ref>, k: nat)
    requires k < |refs|
    ensures RefSet(refs[..k + 1]) == RefSet(refs[..k]) + {refs[k]}
  {
    TakeOneMore(refs, k);
    assert forall r :: r in refs[..k + 1] <==> r in refs[..k] || r == refs[k];
  }

  class Prover {
    const e: Evidence
    ghost const h: Height
    var done: map<Ref, Partial>
    var busy: set<Ref>

    constructor (e: Evidence, ghost h: Height)
      requires Built(e.l, h)
      ensures this.e == e && Valid() && busy == {} && done == map[]
    {
      this.e, this.h, done, busy := e, h, map[], {};
    }

    ghost predicate Valid()
      reads this
    {
      Built(e.l, h) && Memoised(e, done) && busy <= e.l.own.Keys
    }

    /** `prove`: whatever is known already and whatever is in progress, the answer is the value's own. */
    method Prove(ref: Ref) returns (p: Partial)
      requires Valid() && AllAbove(e, busy, ref)
      modifies this
      ensures Valid() && busy == old(busy) && Answered(e, {ref}, p)
      decreases e.l.own.Keys - busy, 1
    {
      if !e.Here(ref) {
        OutsideAnswered(e, ref);
        return NOTHING;
      }
      if ref in done { return done[ref]; }
      if ref in busy {
        LoopAnswered(e, ref);
        return NOTHING.Stop(ref, LineageLoops);
      }
      ghost var above := busy;
      busy := busy + {ref};
      assert busy - {ref} == above;
      p := ProveValue(ref);
      busy := busy - {ref};
      done := done[ref := p];
    }

    /** The answers for several values that a value in progress needs, added up. */
    method ProveAll(refs: seq<Ref>, ghost from: Ref) returns (q: Partial)
      requires Valid() && AllAt(e, busy, from) && RefSet(refs) <= e.Deps(from)
      modifies this
      ensures Valid() && busy == old(busy) && Answered(e, RefSet(refs), q)
      decreases e.l.own.Keys - busy, 2
    {
      q := NOTHING;
      NothingAnswered(e);
      assert RefSet(refs[..0]) == {};
      for k := 0 to |refs|
        invariant Valid() && busy == old(busy)
        invariant Answered(e, RefSet(refs[..k]), q)
      {
        assert refs[k] in RefSet(refs);
        BelowAll(e, busy, from, refs[k]);
        var p := Prove(refs[k]);
        UnionAnswered(e, RefSet(refs[..k]), {refs[k]}, q, p);
        OneMoreRef(refs, k);
        q := q.Add(p);
      }
      assert refs[..|refs|] == refs;
    }

    /** `_prove`. */
    method ProveValue(ref: Ref) returns (p: Partial)
      requires Valid() && AllAt(e, busy, ref)
      modifies this
      ensures Valid() && busy == old(busy) && Answered(e, {ref}, p)
      decreases e.l.own.Keys - busy, 6
    {
      if e.ModelMade(ref) {
        p := Rederive(ref);
      } else {
        var own := OwnPartOf(e, h, ref);
        var q := ProveAll(e.l.own[ref].parents, ref);
        PlainAnswered(e, ref, own, q);
        p := own.Add(q);
      }
    }

    /** `_rederive`, with the value's gaps already written down. */
    method Rederive(ref: Ref) returns (p: Partial)
      requires Valid() && AllAt(e, busy, ref) && e.ModelMade(ref)
      modifies this
      ensures Valid() && busy == old(busy) && Answered(e, {ref}, p)
      decreases e.l.own.Keys - busy, 5
    {
      var gaps := NOTHING.(notProven := Stopped(ref, Gaps(e, ref)));
      var subs := e.SubstitutesOf(ref);
      if subs == [] {
        p := gaps.Add(NOTHING.Stop(ref, NotYetExcisable).(rederived := map[ref := Rederivation(e.ReaderOf(ref), [], [])]));
        NoSubstitutesAnswers(e, ref, p);
        return;
      }
      var t;
      ghost var q;
      t, q := TryAll(ref, subs);
      StandsAnswers(e, ref, q, t);
      p := gaps.Add(Concluded(ref, e.ReaderOf(ref), t));
    }

    /** The substitutes in turn. */
    method TryAll(ref: Ref, subs: seq<Decl>) returns (t: Tally, ghost q: Partial)
      requires Valid() && AllAt(e, busy, ref) && e.ModelMade(ref) && subs == e.SubstitutesOf(ref)
      modifies this
      ensures Valid() && busy == old(busy) && Stands(e, ref, e.CasesOf(ref), q, t)
      decreases e.l.own.Keys - busy, 4, 1
    {
      t, q := FRESH, NOTHING;
      ghost var cases := e.CasesOf(ref);
      for k := 0 to |subs|
        invariant Valid() && busy == old(busy)
        invariant Stands(e, ref, cases[..k], q, t)
      {
        t, q := Try(ref, subs[k], cases[..k], t, q);
        TakeOneMore(cases, k);
      }
      assert cases[..|subs|] == cases;
    }

    /** One substitute: passed over, blocked by its inputs, or run. */
    method Try(ref: Ref, s: Decl, ghost before: seq<Case>, t: Tally, ghost q: Partial) returns (t': Tally, ghost q': Partial)
      requires Valid() && AllAt(e, busy, ref) && e.ModelMade(ref) && s in e.SubstitutesOf(ref)
      requires Stands(e, ref, before, q, t)
      modifies this
      ensures Valid() && busy == old(busy)
      ensures Stands(e, ref, before + [e.CaseOf(ref, s)], q', t')
      decreases e.l.own.Keys - busy, 4, 0
    {
      var c := e.CaseOf(ref, s);
      if c.Passed? {
        StandsPassed(e, ref, before, q, t, c);
        return AfterPass(t, c), q;
      }
      var inputs := ProveInputs(ref, s);
      if inputs.notProven != {} {
        StandsBlocked(e, ref, before, q, t, c, inputs);
        t', q' := AfterBlock(t, c, inputs), Joined(t.blocked, inputs);
      } else {
        StandsRun(e, ref, before, q, t, c, inputs);
        t', q' := AfterRun(t, c, inputs), inputs;
      }
    }

    /** The inputs a substitute takes, each found once among what the step consumed, proven one by one. */
    method ProveInputs(ref: Ref, s: Decl) returns (inputs: Partial)
      requires Valid() && AllAt(e, busy, ref) && e.ModelMade(ref) && e.Viable(ref, s)
      modifies this
      ensures Valid() && busy == old(busy) && Answered(e, e.Deps(ref), inputs)
      decreases e.l.own.Keys - busy, 3
    {
      FoundAreNeeds(e, ref, s);
      inputs := ProveAll(e.FoundFor(ref, s.inputs), ref);
    }
  }

  // ---- the substitutes of a value in progress ----

  /** Where a value stands after the substitutes of `cs`: once one of them could be run, `q` answers for the needs. */
  ghost predicate Stands(e: Evidence, x: Ref, cs: seq<Case>, q: Partial, t: Tally)
    requires e.Here(x)
  {
    if SomeJudged(cs) then Fits(cs, q.notProven == {}, q, t) && Answered(e, e.Deps(x), q)
    else Fits(cs, true, q, t) && Fits(cs, false, q, t)
  }

  lemma StandsPassed(e: Evidence, x: Ref, cs: seq<Case>, q: Partial, t: Tally, c: Case)
    requires e.Here(x) && Stands(e, x, cs, q, t) && c.Passed?
    ensures Stands(e, x, cs + [c], q, AfterPass(t, c))
  {
    OneMoreCase(cs, c, true);
    if SomeJudged(cs) {
      PassFits(cs, q.notProven == {}, q, t, c);
    } else {
      PassFits(cs, true, q, t, c);
      PassFits(cs, false, q, t, c);
    }
  }

  lemma StandsBlocked(e: Evidence, x: Ref, cs: seq<Case>, q: Partial, t: Tally, c: Case, inputs: Partial)
    requires e.Here(x) && Stands(e, x, cs, q, t) && c.Judged?
    requires Answered(e, e.Deps(x), inputs) && inputs.notProven != {}
    ensures Stands(e, x, cs + [c], Joined(t.blocked, inputs), AfterBlock(t, c, inputs))
  {
    OneMoreCase(cs, c, false);
    if SomeJudged(cs) {
      OneVerdictAnswered(e, e.Deps(x), q, inputs);
      UnionAnswered(e, e.Deps(x), e.Deps(x), q, inputs);
      assert e.Deps(x) + e.Deps(x) == e.Deps(x);
    }
    BlockFits(cs, q, t, c, inputs);
  }

  lemma StandsRun(e: Evidence, x: Ref, cs: seq<Case>, q: Partial, t: Tally, c: Case, inputs: Partial)
    requires e.Here(x) && Stands(e, x, cs, q, t) && c.Judged?
    requires Answered(e, e.Deps(x), inputs) && inputs.notProven == {}
    ensures Stands(e, x, cs + [c], inputs, AfterRun(t, c, inputs))
  {
    OneMoreCase(cs, c, true);
    if SomeJudged(cs) { OneVerdictAnswered(e, e.Deps(x), inputs, q); }
    RunFits(cs, q, t, c, inputs);
  }

  lemma StandsAnswers(e: Evidence, x: Ref, q: Partial, t: Tally)
    requires e.Here(x) && e.ModelMade(x) && e.CasesOf(x) != [] && Stands(e, x, e.CasesOf(x), q, t)
    ensures Answered(e, {x}, NOTHING.(notProven := Stopped(x, Gaps(e, x))).Add(Concluded(x, e.ReaderOf(x), t)))
  {
    if !SomeJudged(e.CasesOf(x)) {
      NoneAnswers(e, x, true, q, t);
    } else if q.notProven == {} {
      RunAnswers(e, x, q, t);
    } else {
      BlockedAnswers(e, x, q, t);
    }
  }

  /** What a viable substitute takes is what the value needs. */
  lemma FoundAreNeeds(e: Evidence, x: Ref, s: Decl)
    requires e.Here(x) && e.ModelMade(x) && e.Viable(x, s)
    ensures e.AllThere(x, s.inputs) && RefSet(e.FoundFor(x, s.inputs)) == e.Deps(x)
  {
    ViableIsThere(e, x, s);
    FoundAreInputs(e, x, s);
    ViableShareInputs(e, x, s);
  }

  lemma ViableIsThere(e: Evidence, x: Ref, s: Decl)
    requires e.Here(x) && e.ModelMade(x) && e.Viable(x, s)
    ensures e.AllThere(x, s.inputs)
  {}

  lemma FoundAreInputs(e: Evidence, x: Ref, s: Decl)
    requires e.Here(x) && e.ModelMade(x) && e.AllThere(x, s.inputs)
    ensures RefSet(e.FoundFor(x, s.inputs)) == e.InputsFor(x, s.inputs)
  {
    forall r ensures r in e.FoundFor(x, s.inputs) <==> r in e.InputsFor(x, s.inputs) {
      assert r == Ref(r.graph, r.instance);
    }
  }

  // ---- a value not made by the model ----

  /** `_reads`. */
  function Reads(p: Partial, ref: Ref, entry: Entry): (r: Partial)
    ensures r.notProven == p.notProven + Stopped(ref, ReadStops(entry)) && r.roles == p.roles + ReadRoles(entry)
    ensures r.rederived == p.rederived && r.premises == p.premises
  {
    if entry.readsRoles.None? || entry.readsMm.None? then p.Stop(ref, ReadsNotRecorded)
    else
      var read := if entry.readsMm.value then p.Stop(ref, ReadsTheMentalModel) else p;
      read.(roles := read.roles + entry.readsRoles.value)
  }

  function SnapshotStops(entries: seq<Entry>): set<Reason> { set e, k | e in entries && k in ReadStops(e) :: k }
  function SnapshotRoles(entries: seq<Entry>): set<Iri> { set e, k | e in entries && k in ReadRoles(e) :: k }

  lemma OneMoreEntry(entries: seq<Entry>, k: nat)
    requires k < |entries|
    ensures SnapshotStops(entries[..k + 1]) == SnapshotStops(entries[..k]) + ReadStops(entries[k])
    ensures SnapshotRoles(entries[..k + 1]) == SnapshotRoles(entries[..k]) + ReadRoles(entries[k])
  {
    TakeOneMore(entries, k);
    var a, b := entries[..k], entries[..k + 1];
    assert forall e :: e in b <==> e in a || e == entries[k];
    assert forall r :: r in SnapshotStops(b) <==> r in SnapshotStops(a) || r in ReadStops(entries[k]);
    assert forall r :: r in SnapshotRoles(b) <==> r in SnapshotRoles(a) || r in ReadRoles(entries[k]);
  }

  lemma StoppedMore(x: Ref, a: set<Reason>, b: set<Reason>)
    ensures Stopped(x, a + b) == Stopped(x, a) + Stopped(x, b)
  {}

  method ReadsAll(p: Partial, ref: Ref, entries: seq<Entry>) returns (r: Partial)
    ensures r == p.(notProven := p.notProven + Stopped(ref, SnapshotStops(entries)), roles := p.roles + SnapshotRoles(entries))
  {
    r := p;
    for k := 0 to |entries|
      invariant r == p.(notProven := p.notProven + Stopped(ref, SnapshotStops(entries[..k])), roles := p.roles + SnapshotRoles(entries[..k]))
    {
      OneMoreEntry(entries, k);
      StoppedMore(ref, SnapshotStops(entries[..k]), ReadStops(entries[k]));
      r := Reads(r, ref, entries[k]);
    }
    assert entries[..|entries|] == entries;
  }

  /** Something the value rests on was made by the model. */
  method RestsOnMade(e: Evidence, ghost h: Height, ref: Ref) returns (made: bool)
    requires Built(e.l, h) && ref in e.l.own
    ensures made == e.RestsOnModelMade(ref)
  {
    var leaned := Leaned(e.l, h, ref);
    NoModelsUnlisted(e.l, ref);
    made := leaned.Some? && SomeHow(e.l, leaned.value.models, MODEL_MADE);
  }

  /** A copy of the value was handed to a step as the model's answer, and nothing it rests on was made by the model. */
  method AnswersTaken(e: Evidence, ghost h: Height, ref: Ref) returns (stops: set<Reason>)
    requires Built(e.l, h) && e.Here(ref)
    ensures stops == e.AnswerStops(ref)
  {
    var marks := MarksFor(e.l, h, ref);
    stops := {};
    if SomeHow(e.l, marks, {AnswerInput}) {
      var made := RestsOnMade(e, h, ref);
      if !made { stops := {ModelAnswerNotExcisable}; }
    }
  }

  lemma NoModelsUnlisted(l: Lineage, ref: Ref)
    ensures Listing(l, ref).None? ==> ModelsOf(l, ref) == {}
    ensures Listing(l, ref).Some? ==> Listing(l, ref).value.models == ModelsOf(l, ref)
  {}

  /** What `_prove` writes down for a value not made by the model, before it turns to the parents. */
  method OwnPartOf(e: Evidence, ghost h: Height, ref: Ref) returns (own: Partial)
    requires Built(e.l, h) && e.Here(ref) && !e.ModelMade(ref)
    ensures OwnPart(e, ref, own)
  {
    own := NOTHING.(notProven := Stopped(ref, Gaps(e, ref)));
    var answers := AnswersTaken(e, h, ref);
    own := own.(notProven := own.notProven + Stopped(ref, answers));
    if e.ProducerOf(ref).Some? {
      own := StepPart(e, ref, own);
    } else {
      own := StartPart(e, ref, own);
    }
    OwnPartIs(e, ref, own);
  }

  function RecordedStops(e: Evidence, ref: Ref): set<Reason>
    requires e.Here(ref)
  {
    if e.ProducerOf(ref).Some? then e.StepStops(ref) else e.StartStops(ref)
  }

  lemma OwnPartIs(e: Evidence, ref: Ref, own: Partial)
    requires e.Here(ref) && !e.ModelMade(ref)
    requires own.notProven == Stopped(ref, Gaps(e, ref)) + Stopped(ref, e.AnswerStops(ref)) + Stopped(ref, RecordedStops(e, ref))
    requires own.rederived == map[] && own.premises == (if e.IsPremise(ref) then {ref} else {})
    requires forall role :: role in own.roles <==> e.ReadsRole(ref, role)
    ensures OwnPart(e, ref, own)
  {
    var all := Gaps(e, ref) + e.AnswerStops(ref) + RecordedStops(e, ref);
    assert e.LocalStops(ref) == all;
    StoppedMore(ref, Gaps(e, ref), e.AnswerStops(ref));
    StoppedMore(ref, Gaps(e, ref) + e.AnswerStops(ref), RecordedStops(e, ref));
    forall n ensures n in Stopped(ref, all) <==> n.0 == ref && n.1 in all { assert n == (n.0, n.1); }
  }

  /** A step's output: its declared reads, and whether it consumed an origin record. */
  method StepPart(e: Evidence, ref: Ref, before: Partial) returns (own: Partial)
    requires e.Here(ref) && !e.ModelMade(ref) && e.ProducerOf(ref).Some?
    requires before.rederived == map[] && before.premises == {} && before.roles == {}
    ensures own.notProven == before.notProven + Stopped(ref, RecordedStops(e, ref))
    ensures own.rederived == map[] && own.premises == (if e.IsPremise(ref) then {ref} else {})
    ensures forall role :: role in own.roles <==> e.ReadsRole(ref, role)
  {
    own := before;
    var run, producer := e.RunOf(ref), e.ProducerOf(ref).value;
    var entry := run.Declaration(producer);
    if entry.Some? { own := Reads(own, ref, entry.value); }
    if exists c :: c in run.Consumed(producer) && run.IsRecord(c) { own := own.Stop(ref, ConsumedAnOriginRecord); }
  }

  /** A start: its origin, and what was read in interpreting it. */
  method StartPart(e: Evidence, ref: Ref, before: Partial) returns (own: Partial)
    requires e.Here(ref) && !e.ModelMade(ref) && e.ProducerOf(ref).None?
    requires before.rederived == map[] && before.premises == {} && before.roles == {}
    ensures own.notProven == before.notProven + Stopped(ref, RecordedStops(e, ref))
    ensures own.rederived == map[] && own.premises == (if e.IsPremise(ref) then {ref} else {})
    ensures forall role :: role in own.roles <==> e.ReadsRole(ref, role)
  {
    own := before;
    match e.RunOf(ref).OriginOf(e.DatastateOf(ref)) {
      case Some(Given) => own := own.(premises := {ref});
      case Some(Interpreted(used, snapshot)) =>
        if used.Some? && used.value != [] { own := own.Stop(ref, InterpretedWithTheModel); }
        if snapshot.None? {
          own := own.Stop(ref, InterpretationNotRecorded);
        } else {
          own := ReadsAll(own, ref, snapshot.value);
          own := own.(premises := {ref});
        }
      case _ =>
    }
  }

  // ---- the two entry points ----

  /** `prove`: a prover of its own for one value; the caller asks only about values of the Episode. */
  method ProveAlone(l: Lineage, ghost h: Height, scope: Scope, value: Ref) returns (report: Option<Partial>)
    requires Built(l, h)
    ensures report.Some? <==> value in l.own
    ensures report.Some? ==> Evidence(l, scope).Answers({value}, report.value)
  {
    if value !in l.own { return None; }
    var prover := new Prover(Evidence(l, scope), h);
    var p := prover.Prove(value);
    Unfold(Evidence(l, scope), {value}, p);
    return Some(p);
  }

  /** `proven_walk`: one prover for every listed value, in whatever order; each report answers for its value. */
  method ProvenWalk(l: Lineage, ghost h: Height, scope: Scope) returns (reports: map<Ref, (Leaning, Partial)>)
    requires Built(l, h)
    ensures forall r :: r in reports <==> r in l.own && Listing(l, r).Some?
    ensures forall r | r in reports :: Some(reports[r].0) == Listing(l, r) && Evidence(l, scope).Answers({r}, reports[r].1)
  {
    var listed := Walk(l, h);
    var e := Evidence(l, scope);
    var prover := new Prover(e, h);
    var proofs := ProveEach(prover, listed.Keys);
    reports := map r | r in listed :: (listed[r], proofs[r]);
    forall r | r in reports ensures e.Answers({r}, reports[r].1) { Unfold(e, {r}, reports[r].1); }
  }

  method ProveEach(prover: Prover, values: set<Ref>) returns (proofs: map<Ref, Partial>)
    requires prover.Valid() && prover.busy == {}
    modifies prover
    ensures proofs.Keys == values && Memoised(prover.e, proofs)
  {
    proofs := map[];
    var todo := values;
    while todo != {}
      invariant prover.Valid() && prover.busy == {} && todo <= values
      invariant proofs.Keys == values - todo && Memoised(prover.e, proofs)
    {
      var r :| r in todo;
      todo := todo - {r};
      var p := prover.Prove(r);
      proofs := proofs[r := p];
    }
  }
}
