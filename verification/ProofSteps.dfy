/** How the answer for a value follows from the answers for the values it needs. */
module ProofSteps {
  import opened Identifiers
  import opened Graphs
  import opened Episodes
  import opened Lineages
  import opened Substitutes
  import opened Tallies
  import opened Proofs

  lemma NeedsNext(e: Evidence, x: Ref)
    ensures Next(e.Needs(), x) == if e.Here(x) then e.Deps(x) else {}
  {}

  lemma UnderUnion(e: Evidence, s: set<Ref>, t: set<Ref>, x: Ref)
    ensures e.Under(s + t, x) <==> e.Under(s, x) || e.Under(t, x)
  {
    if e.Under(s, x) {
      var d :| d in s && Reaches(e.Needs(), d, x);
      assert d in s + t;
    }
    if e.Under(t, x) {
      var d :| d in t && Reaches(e.Needs(), d, x);
      assert d in s + t;
    }
  }

  /** What a value rests on is itself and what its needs rest on. */
  lemma UnderOne(e: Evidence, ref: Ref, x: Ref)
    requires e.Here(ref)
    ensures e.Under({ref}, x) <==> x == ref || e.Under(e.Deps(ref), x)
  {
    var g := e.Needs();
    NeedsNext(e, ref);
    if e.Under({ref}, x) && x != ref { ReachedIsBeyond(g, ref, x); }
    if e.Under(e.Deps(ref), x) {
      var d :| d in e.Deps(ref) && Reaches(g, d, x);
      assert Reaches(g, ref, d);
      ReachesTransitively(g, ref, d, x);
      assert ref in {ref};
    }
    assert Reaches(g, ref, ref) && ref in {ref};
  }

  lemma LoopIsUnderNeeds(e: Evidence, ref: Ref)
    requires e.Here(ref)
    ensures e.OnLoop(ref) <==> e.Under(e.Deps(ref), ref)
  {
    NeedsNext(e, ref);
  }

  /** A value is proven exactly when it is sound and everything it needs is proven. */
  lemma ProvenOne(e: Evidence, ref: Ref)
    requires e.Here(ref)
    ensures e.Proven({ref}) <==> e.Sound(ref) && e.Proven(e.Deps(ref))
    ensures e.LoopFree({ref}) ==> e.LoopFree(e.Deps(ref))
  {
    forall x ensures e.Under({ref}, x) <==> x == ref || e.Under(e.Deps(ref), x) { UnderOne(e, ref, x); }
    LoopIsUnderNeeds(e, ref);
  }

  lemma AnswersUnion(e: Evidence, s: set<Ref>, t: set<Ref>, p: Partial, q: Partial)
    requires e.Answers(s, p) && e.Answers(t, q)
    ensures e.Answers(s + t, p.Add(q))
  {
    forall x ensures e.Under(s + t, x) <==> e.Under(s, x) || e.Under(t, x) { UnderUnion(e, s, t, x); }
    assert e.Proven(s + t) <==> e.Proven(s) && e.Proven(t);
    assert e.LoopFree(s + t) <==> e.LoopFree(s) && e.LoopFree(t);
    if e.Proven(s + t) { ReportsUnion(e, s, t, p, q); }
  }

  lemma ReportsUnion(e: Evidence, s: set<Ref>, t: set<Ref>, p: Partial, q: Partial)
    requires e.Reports(s, p) && e.Reports(t, q)
    ensures e.Reports(s + t, p.Add(q))
  {
    RederivedUnion(e, s, t, p.rederived, q.rederived);
    PremisesUnion(e, s, t, p.premises, q.premises);
    RolesUnion(e, s, t, p.roles, q.roles);
  }

  lemma RederivedUnion(e: Evidence, s: set<Ref>, t: set<Ref>, p: map<Ref, Rederivation>, q: map<Ref, Rederivation>)
    requires e.RederivedFit(s, p) && e.RederivedFit(t, q)
    ensures e.RederivedFit(s + t, p + q)
  {
    var both := p + q;
    forall x ensures x in both <==> e.Under(s + t, x) && e.Here(x) && e.ModelMade(x) { UnderUnion(e, s, t, x); }
    forall x | x in both && e.Here(x) && e.ModelMade(x) ensures both[x] == e.RederivationOf(x) {}
  }

  lemma PremisesUnion(e: Evidence, s: set<Ref>, t: set<Ref>, p: set<Ref>, q: set<Ref>)
    requires e.PremisesFit(s, p) && e.PremisesFit(t, q)
    ensures e.PremisesFit(s + t, p + q)
  {
    forall x ensures e.Under(s + t, x) <==> e.Under(s, x) || e.Under(t, x) { UnderUnion(e, s, t, x); }
  }

  lemma RolesUnion(e: Evidence, s: set<Ref>, t: set<Ref>, p: set<Iri>, q: set<Iri>)
    requires e.RolesFit(s, p) && e.RolesFit(t, q)
    ensures e.RolesFit(s + t, p + q)
  {
    forall x ensures e.Under(s + t, x) <==> e.Under(s, x) || e.Under(t, x) { UnderUnion(e, s, t, x); }
    forall role ensures role in p + q <==> exists x :: e.Under(s + t, x) && e.Here(x) && e.ReadsRole(x, role) {
      if role in p {
        var x :| e.Under(s, x) && e.Here(x) && e.ReadsRole(x, role);
        assert e.Under(s + t, x);
      } else if role in q {
        var x :| e.Under(t, x) && e.Here(x) && e.ReadsRole(x, role);
        assert e.Under(s + t, x);
      }
    }
  }

  lemma AnswersNothing(e: Evidence)
    ensures e.Answers({}, NOTHING)
  {
    assert forall x :: !e.Under({}, x);
  }

  /** Not a value: nothing rests on it. */
  lemma OutsideAnswers(e: Evidence, ref: Ref)
    requires !e.Here(ref)
    ensures e.Answers({ref}, NOTHING)
  {
    NeedsNext(e, ref);
    forall x ensures e.Under({ref}, x) <==> x == ref {
      if x != ref && e.Under({ref}, x) { ReachedIsBeyond(e.Needs(), ref, x); }
      assert Reaches(e.Needs(), ref, ref) && ref in {ref};
    }
    assert !e.OnLoop(ref);
  }

  /** Reached again while still being proven: it is on a loop, and so not proven. */
  lemma LoopAnswers(e: Evidence, ref: Ref)
    requires e.Here(ref) && e.OnLoop(ref)
    ensures e.Answers({ref}, NOTHING.Stop(ref, LineageLoops))
  {
    UnderOne(e, ref, ref);
  }

  // ---- a value not made by the model ----

  /** What `_prove` writes down for a value before it turns to the parents. */
  ghost predicate OwnPart(e: Evidence, ref: Ref, p: Partial)
    requires e.Here(ref)
  {
    && (forall n :: n in p.notProven <==> n.0 == ref && n.1 in e.LocalStops(ref))
    && p.rederived == map[]
    && (forall x :: x in p.premises <==> x == ref && e.IsPremise(ref))
    && (forall role :: role in p.roles <==> e.ReadsRole(ref, role))
  }

  lemma PlainAnswers(e: Evidence, ref: Ref, own: Partial, q: Partial)
    requires e.Here(ref) && !e.ModelMade(ref)
    requires OwnPart(e, ref, own) && e.Answers(e.Deps(ref), q)
    ensures e.Answers({ref}, own.Add(q))
  {
    var p := own.Add(q);
    ProvenOne(e, ref);
    forall x ensures e.Under({ref}, x) <==> x == ref || e.Under(e.Deps(ref), x) { UnderOne(e, ref, x); }
    if k :| k in e.LocalStops(ref) { assert (ref, k) in own.notProven; }
    assert own.notProven == {} <==> e.LocalStops(ref) == {};
    if e.Proven({ref}) { PlainReports(e, ref, own, q); }
    PlainStops(e, ref, own, q);
  }

  lemma PlainStops(e: Evidence, ref: Ref, own: Partial, q: Partial)
    requires e.Here(ref) && !e.ModelMade(ref)
    requires OwnPart(e, ref, own) && e.Answers(e.Deps(ref), q)
    ensures e.LoopFree({ref}) ==>
      forall n :: n in own.Add(q).notProven <==> e.Under({ref}, n.0) && e.Stops(n.0, n.1)
  {
    forall x ensures e.Under({ref}, x) <==> x == ref || e.Under(e.Deps(ref), x) { UnderOne(e, ref, x); }
    ProvenOne(e, ref);
    LoopIsUnderNeeds(e, ref);
    if e.LoopFree({ref}) {
      assert e.Under({ref}, ref) && !e.OnLoop(ref);
      forall n ensures n in own.Add(q).notProven <==> e.Under({ref}, n.0) && e.Stops(n.0, n.1) {}
    }
  }

  lemma PlainReports(e: Evidence, ref: Ref, own: Partial, q: Partial)
    requires e.Here(ref) && !e.ModelMade(ref)
    requires OwnPart(e, ref, own) && e.Reports(e.Deps(ref), q)
    ensures e.Reports({ref}, own.Add(q))
  {
    RederivedPlain(e, ref, q.rederived);
    assert own.rederived + q.rederived == q.rederived;
    PremisesOne(e, ref, own.premises, q.premises);
    RolesOne(e, ref, own.roles, q.roles);
  }

  lemma RederivedPlain(e: Evidence, ref: Ref, q: map<Ref, Rederivation>)
    requires e.Here(ref) && !e.ModelMade(ref) && e.RederivedFit(e.Deps(ref), q)
    ensures e.RederivedFit({ref}, q)
  {
    forall x ensures e.Under({ref}, x) <==> x == ref || e.Under(e.Deps(ref), x) { UnderOne(e, ref, x); }
  }

  lemma RederivedReread(e: Evidence, ref: Ref, q: map<Ref, Rederivation>)
    requires e.Here(ref) && e.ModelMade(ref) && e.RederivedFit(e.Deps(ref), q)
    ensures e.RederivedFit({ref}, q[ref := e.RederivationOf(ref)])
  {
    var m := q[ref := e.RederivationOf(ref)];
    forall x ensures x in m <==> e.Under({ref}, x) && e.Here(x) && e.ModelMade(x) { UnderOne(e, ref, x); }
    forall x | x in m && e.Here(x) && e.ModelMade(x) ensures m[x] == e.RederivationOf(x) {
      if x != ref { assert m[x] == q[x]; }
    }
  }

  lemma PremisesOne(e: Evidence, ref: Ref, own: set<Ref>, q: set<Ref>)
    requires e.Here(ref) && e.PremisesFit(e.Deps(ref), q)
    requires forall x :: x in own <==> x == ref && e.IsPremise(ref)
    ensures e.PremisesFit({ref}, own + q)
  {
    forall x ensures e.Under({ref}, x) <==> x == ref || e.Under(e.Deps(ref), x) { UnderOne(e, ref, x); }
  }

  lemma RolesOne(e: Evidence, ref: Ref, own: set<Iri>, q: set<Iri>)
    requires e.Here(ref) && e.RolesFit(e.Deps(ref), q)
    requires forall role :: role in own <==> e.ReadsRole(ref, role)
    ensures e.RolesFit({ref}, own + q)
  {
    forall x ensures e.Under({ref}, x) <==> x == ref || e.Under(e.Deps(ref), x) { UnderOne(e, ref, x); }
    forall role ensures role in own + q <==> exists x :: e.Under({ref}, x) && e.Here(x) && e.ReadsRole(x, role) {
      if role in own {
        assert e.Under({ref}, ref);
      } else if role in q {
        var x :| e.Under(e.Deps(ref), x) && e.Here(x) && e.ReadsRole(x, role);
        assert e.Under({ref}, x);
      }
    }
  }

  // ---- a value made by the model ----

  /** Every substitute that can be run takes the same inputs, so the needs are one and the same whichever it is. */
  lemma ViableShareInputs(e: Evidence, x: Ref, s: Decl)
    requires e.Here(x) && e.ModelMade(x) && e.Viable(x, s)
    ensures e.InputsFor(x, s.inputs) == e.Deps(x)
  {
    forall t | t in e.SubstitutesOf(x) && e.Refusal(x, t).None? ensures t.inputs == s.inputs { ViableArePaired(e, x, s, t); }
  }

  lemma ViableArePaired(e: Evidence, x: Ref, s: Decl, t: Decl)
    requires e.Here(x) && e.ModelMade(x) && e.Viable(x, s) && e.Viable(x, t)
    ensures s.inputs == t.inputs
  {
    PairedShareInputs(s, t, e.scope.Merged()[e.ReaderOf(x)]);
  }

  ghost predicate StopsAre(ref: Ref, own: set<Reason>, run: set<Reason>, q: set<(Ref, Reason)>, p: set<(Ref, Reason)>) {
    forall n :: n in p <==> n in q || (n.0 == ref && (n.1 in own || (q == {} && n.1 in run)))
  }

  lemma StopsAdded(ref: Ref, own: set<Reason>, run: set<Reason>, q: set<(Ref, Reason)>)
    ensures StopsAre(ref, own, run, q, q + Stopped(ref, own) + if q == {} then Stopped(ref, run) else {})
  {
    var p := q + Stopped(ref, own) + if q == {} then Stopped(ref, run) else {};
    forall n ensures n in p <==> n in q || (n.0 == ref && (n.1 in own || (q == {} && n.1 in run))) {
      assert n == (n.0, n.1);
    }
  }

  /** What is written down of a model-made value once all its substitutes are through: `stops` speak against it
      whatever its inputs came to, and if nothing does, its own re-derivation joins what the inputs report. */
  ghost predicate RereadPart(e: Evidence, ref: Ref, stops: set<Reason>, q: Partial, own: set<Iri>, p: Partial)
    requires e.Here(ref) && e.ModelMade(ref)
  {
    && StopsAre(ref, stops, e.RunStops(ref), q.notProven, p.notProven)
    && (q.notProven == {} && stops == {} && e.RunStops(ref) == {} ==>
         && p.rederived == q.rederived[ref := e.RederivationOf(ref)]
         && p.premises == q.premises
         && p.roles == own + q.roles && forall role :: role in own <==> e.ReadsRole(ref, role))
  }

  lemma RereadAnswers(e: Evidence, ref: Ref, q: Partial, own: set<Iri>, p: Partial)
    requires e.Here(ref) && e.ModelMade(ref)
    requires e.Answers(e.Deps(ref), q) && RereadPart(e, ref, e.LocalStops(ref), q, own, p)
    ensures e.Answers({ref}, p)
  {
    RereadVerdict(e, ref, q, own, p);
    if e.Proven({ref}) {
      ProvenOne(e, ref);
      RereadReports(e, ref, q, own, p);
    }
    RereadCauses(e, ref, q, own, p);
    RereadStops(e, ref, q, own, p);
  }

  lemma RereadVerdict(e: Evidence, ref: Ref, q: Partial, own: set<Iri>, p: Partial)
    requires e.Here(ref) && e.ModelMade(ref)
    requires e.Answers(e.Deps(ref), q) && RereadPart(e, ref, e.LocalStops(ref), q, own, p)
    ensures p.notProven == {} <==> e.Proven({ref})
  {
    ProvenOne(e, ref);
    NothingStops(ref, e.LocalStops(ref), e.RunStops(ref), q.notProven, p.notProven);
  }

  lemma NothingStops(ref: Ref, own: set<Reason>, run: set<Reason>, q: set<(Ref, Reason)>, p: set<(Ref, Reason)>)
    requires StopsAre(ref, own, run, q, p)
    ensures p == {} <==> q == {} && own == {} && run == {}
  {
    if k :| k in own { assert (ref, k) in p; }
    if k :| q == {} && k in run { assert (ref, k) in p; }
    if n :| n in q { assert n in p; }
  }

  lemma RereadCauses(e: Evidence, ref: Ref, q: Partial, own: set<Iri>, p: Partial)
    requires e.Here(ref) && e.ModelMade(ref)
    requires e.Answers(e.Deps(ref), q) && RereadPart(e, ref, e.LocalStops(ref), q, own, p)
    ensures forall n | n in p.notProven :: e.Under({ref}, n.0) && e.HasCause(n.0, n.1)
  {
    forall x ensures e.Under({ref}, x) <==> x == ref || e.Under(e.Deps(ref), x) { UnderOne(e, ref, x); }
  }

  lemma RereadStops(e: Evidence, ref: Ref, q: Partial, own: set<Iri>, p: Partial)
    requires e.Here(ref) && e.ModelMade(ref)
    requires e.Answers(e.Deps(ref), q) && RereadPart(e, ref, e.LocalStops(ref), q, own, p)
    ensures e.LoopFree({ref}) ==> forall n :: n in p.notProven <==> e.Under({ref}, n.0) && e.Stops(n.0, n.1)
  {
    forall x ensures e.Under({ref}, x) <==> x == ref || e.Under(e.Deps(ref), x) { UnderOne(e, ref, x); }
    ProvenOne(e, ref);
    LoopIsUnderNeeds(e, ref);
    if e.LoopFree({ref}) {
      assert e.Under({ref}, ref) && !e.OnLoop(ref);
      forall n ensures n in p.notProven <==> e.Under({ref}, n.0) && e.Stops(n.0, n.1) {}
    }
  }

  lemma RereadReports(e: Evidence, ref: Ref, q: Partial, own: set<Iri>, p: Partial)
    requires e.Here(ref) && e.ModelMade(ref)
    requires e.Reports(e.Deps(ref), q)
    requires p.rederived == q.rederived[ref := e.RederivationOf(ref)]
    requires p.premises == q.premises && p.roles == own + q.roles && forall role :: role in own <==> e.ReadsRole(ref, role)
    ensures e.Reports({ref}, p)
  {
    RederivedReread(e, ref, q.rederived);
    PremisesOne(e, ref, {}, q.premises);
    assert {} + q.premises == q.premises;
    RolesOne(e, ref, own, q.roles);
  }

  /** With no substitute that can be run there is nothing the value needs, and something against it. */
  lemma NoneViableAnswers(e: Evidence, ref: Ref, p: Partial)
    requires e.Here(ref) && e.ModelMade(ref) && !SomeJudged(e.CasesOf(ref))
    requires p.notProven == Stopped(ref, e.LocalStops(ref))
    ensures e.Answers({ref}, p)
  {
    NoneViableNoNeeds(e, ref);
    AnswersNothing(e);
    var k := if e.CasesOf(ref) == [] then NotYetExcisable else NoSubstituteAgreed;
    assert k in e.RereadStops(ref);
    StopsAdded(ref, e.LocalStops(ref), e.RunStops(ref), {});
    assert p.notProven == {} + Stopped(ref, e.LocalStops(ref)) + Stopped(ref, e.RunStops(ref));
    RereadAnswers(e, ref, NOTHING, {}, p);
  }

  lemma JudgedIsACase(e: Evidence, ref: Ref, s: Decl)
    requires e.Here(ref) && e.ModelMade(ref) && s in e.SubstitutesOf(ref)
    ensures e.CaseOf(ref, s) in e.CasesOf(ref)
  {
    var i :| 0 <= i < |e.SubstitutesOf(ref)| && e.SubstitutesOf(ref)[i] == s;
    assert e.CasesOf(ref)[i] == e.CaseOf(ref, s);
  }

  lemma NoneViableNoNeeds(e: Evidence, ref: Ref)
    requires e.Here(ref) && e.ModelMade(ref) && !SomeJudged(e.CasesOf(ref))
    ensures e.Deps(ref) == {}
  {
    forall s | s in e.SubstitutesOf(ref) ensures e.Refusal(ref, s).Some? { JudgedIsACase(e, ref, s); }
  }

  /** Whatever order the values were proven in and whatever was known already, there is one verdict; for a
      proven value one report; and off loops one list of what stops the proof. */
  lemma OneVerdict(e: Evidence, sources: set<Ref>, p: Partial, q: Partial)
    requires e.Answers(sources, p) && e.Answers(sources, q)
    ensures p.notProven == {} <==> q.notProven == {}
    ensures p.notProven == {} ==> p == q
    ensures e.LoopFree(sources) ==> p.notProven == q.notProven
  {
    if p.notProven == {} { OneReport(e, sources, p, q); }
  }

  lemma OneReport(e: Evidence, sources: set<Ref>, p: Partial, q: Partial)
    requires e.Reports(sources, p) && e.Reports(sources, q)
    ensures p.rederived == q.rederived && p.premises == q.premises && p.roles == q.roles
  {
    OneRederived(e, sources, p.rederived, q.rederived);
    OnePremises(e, sources, p.premises, q.premises);
    OneRoles(e, sources, p.roles, q.roles);
  }

  lemma OneRederived(e: Evidence, sources: set<Ref>, p: map<Ref, Rederivation>, q: map<Ref, Rederivation>)
    requires e.RederivedFit(sources, p) && e.RederivedFit(sources, q)
    ensures p == q
  {
    forall x ensures x in p <==> x in q {}
    forall x | x in p ensures p[x] == q[x] {}
  }

  lemma OnePremises(e: Evidence, sources: set<Ref>, p: set<Ref>, q: set<Ref>)
    requires e.PremisesFit(sources, p) && e.PremisesFit(sources, q)
    ensures p == q
  {
    forall x ensures x in p <==> x in q {}
  }

  lemma OneRoles(e: Evidence, sources: set<Ref>, p: set<Iri>, q: set<Iri>)
    requires e.RolesFit(sources, p) && e.RolesFit(sources, q)
    ensures p == q
  {
    forall x ensures x in p <==> x in q {}
  }

  /** What a proof amounts to: everything the value rests on is recorded throughout, and whatever the model made of
      it re-derives by a substitute that agrees, with none disagreeing, from values proven in their turn. */
  lemma ProvenRestsOnAgreement(e: Evidence, value: Ref, x: Ref)
    requires e.Proven({value}) && e.Under({value}, x) && e.Here(x)
    ensures e.l.own[x].gaps == {}
    ensures e.ModelMade(x) ==>
      SomeAgrees(e.CasesOf(x)) && !SomeDisagrees(e.CasesOf(x)) && !SomeMissing(e.CasesOf(x)) && e.Proven(e.Deps(x))
  {
    assert e.Sound(x);
    forall g | g in e.l.own[x].gaps ensures LineageGap(g) in e.LocalStops(x) {}
    if e.ModelMade(x) {
      RereadStopsNone(e, x);
      assert e.RereadStops(x) <= e.LocalStops(x);
      NeedsBelow(e, value, x);
    }
  }

  lemma RereadStopsNone(e: Evidence, x: Ref)
    requires e.Here(x) && e.ModelMade(x)
    ensures e.RereadStops(x) == {} ==> SomeJudged(e.CasesOf(x)) && !SomeMissing(e.CasesOf(x))
  {
    var stops := e.RereadStops(x);
    assert NotYetExcisable in stops || NoSubstituteAgreed in stops || SomeJudged(e.CasesOf(x));
    assert NotYetExcisable in stops || NotInTheGroundingGraph in stops || !SomeMissing(e.CasesOf(x));
  }

  lemma NeedsBelow(e: Evidence, value: Ref, x: Ref)
    requires e.Under({value}, x) && e.Here(x)
    ensures forall y | e.Under(e.Deps(x), y) :: e.Under({value}, y)
  {
    NeedsNext(e, x);
    var v :| v in {value} && Reaches(e.Needs(), v, x);
    forall y | e.Under(e.Deps(x), y) ensures e.Under({value}, y) {
      var d :| d in e.Deps(x) && Reaches(e.Needs(), d, y);
      ReachesStep(e.Needs(), v, x, d);
      ReachesTransitively(e.Needs(), v, d, y);
    }
  }
}
