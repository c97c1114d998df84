/** What a proof takes from the dispatcher: the runs of substitutes on what was recorded, and nothing of the model. */
module ModelIndependence {
  import opened Identifiers
  import opened Graphs
  import opened Episodes
  import opened Lineages
  import opened Substitutes
  import opened Tallies
  import opened Proofs
  import opened ProofSteps

  /** The same lineage and the same declarations. */
  predicate SameRecord(e: Evidence, f: Evidence) {
    e.l == f.l && e.scope.global == f.scope.global && e.scope.local == f.scope.local && e.scope.names == f.scope.names
  }

  /** The dispatchers agree on what each substitute that is neither passed over nor refused for what it declares does with
      the recorded inputs, and on the check of what came of it. */
  ghost predicate SubstitutesRunAlike(e: Evidence, f: Evidence, x: Ref)
    requires e.Here(x) && e.ModelMade(x)
  {
    forall s | e.Viable(x, s) && e.AllThere(x, s.inputs) && !s.writes && e.DatastateOf(x) in s.outputs :: RunsAlikeOn(e, f, x, s)
  }

  ghost predicate RunsAlikeOn(e: Evidence, f: Evidence, x: Ref, s: Decl)
    requires e.Here(x) && e.ModelMade(x) && e.AllThere(x, s.inputs)
  {
    RunAlike(e.scope, f.scope, s.iri, e.InputValues(x, s.inputs), e.RunOf(x).nodes[x.instance].value, e.DatastateOf(x))
  }

  lemma SameSubstitutes(a: Scope, b: Scope, sorted: seq<Iri>, reader: Iri)
    requires a.global == b.global && a.local == b.local
    ensures a.Named(sorted, reader) == b.Named(sorted, reader)
  {}

  lemma SamePlace(e: Evidence, f: Evidence, x: Ref)
    requires SameRecord(e, f) && e.Here(x)
    ensures f.Here(x) && f.RunOf(x) == e.RunOf(x) && f.DatastateOf(x) == e.DatastateOf(x) && f.ModelMade(x) == e.ModelMade(x)
  {}

  lemma SameReader(e: Evidence, f: Evidence, x: Ref)
    requires SameRecord(e, f) && e.Here(x) && e.ModelMade(x)
    ensures f.Here(x) && f.ModelMade(x) && f.ReaderOf(x) == e.ReaderOf(x) && f.Withheld(x) == e.Withheld(x)
    ensures f.SubstitutesOf(x) == e.SubstitutesOf(x)
  {
    SamePlace(e, f, x);
    SameSubstitutes(e.scope, f.scope, SortByIri(e.scope.names), e.ReaderOf(x));
  }

  lemma SameConsumed(e: Evidence, f: Evidence, x: Ref, d: Iri)
    requires SameRecord(e, f) && e.Here(x) && e.ModelMade(x) && f.Here(x) && f.ModelMade(x)
    ensures f.ConsumedAs(x, d) == e.ConsumedAs(x, d)
  {}

  lemma SameInputs(e: Evidence, f: Evidence, x: Ref, inputs: seq<Iri>)
    requires SameRecord(e, f) && e.Here(x) && e.ModelMade(x) && f.Here(x) && f.ModelMade(x)
    ensures f.AllThere(x, inputs) == e.AllThere(x, inputs) && f.InputsFor(x, inputs) == e.InputsFor(x, inputs)
    ensures e.AllThere(x, inputs) ==> f.InputValues(x, inputs) == e.InputValues(x, inputs)
  {
    forall d ensures f.ConsumedAs(x, d) == e.ConsumedAs(x, d) { SameConsumed(e, f, x, d); }
  }

  lemma SameRefusal(e: Evidence, f: Evidence, x: Ref, s: Decl)
    requires SameRecord(e, f) && e.Here(x) && e.ModelMade(x) && f.Here(x) && f.ModelMade(x)
    requires s in e.SubstitutesOf(x) && s in f.SubstitutesOf(x)
    ensures f.Refusal(x, s) == e.Refusal(x, s)
  {
    SameReader(e, f, x);
    SameInputs(e, f, x, s.inputs);
    RefusedAlike(e, f, x, s);
  }

  lemma RefusedAlike(e: Evidence, f: Evidence, x: Ref, s: Decl)
    requires e.Here(x) && e.ModelMade(x) && f.Here(x) && f.ModelMade(x) && s in e.SubstitutesOf(x) && s in f.SubstitutesOf(x)
    requires f.scope.Pairs(s, f.ReaderOf(x)) == e.scope.Pairs(s, e.ReaderOf(x)) && f.Withheld(x) == e.Withheld(x)
    requires f.AllThere(x, s.inputs) == e.AllThere(x, s.inputs)
    ensures f.Refusal(x, s) == e.Refusal(x, s)
  {}

  lemma NotRefusedIsThere(e: Evidence, x: Ref, s: Decl)
    requires e.Here(x) && e.ModelMade(x) && s in e.SubstitutesOf(x) && e.Refusal(x, s).None?
    ensures e.Viable(x, s) && e.AllThere(x, s.inputs)
  {}

  lemma SameCase(e: Evidence, f: Evidence, x: Ref, s: Decl)
    requires SameRecord(e, f) && e.Here(x) && e.ModelMade(x) && f.Here(x) && f.ModelMade(x) && SubstitutesRunAlike(e, f, x)
    requires s in e.SubstitutesOf(x) && s in f.SubstitutesOf(x)
    ensures f.Refusal(x, s) == e.Refusal(x, s) && f.CaseOf(x, s) == e.CaseOf(x, s)
  {
    SameRefusal(e, f, x, s);
    if e.Refusal(x, s).None? {
      NotRefusedIsThere(e, x, s);
      NotRefusedIsThere(f, x, s);
      assert !s.writes && e.DatastateOf(x) in s.outputs ==> RunsAlikeOn(e, f, x, s);
      SameOutcome(e, f, x, s);
    }
  }

  lemma SameOutcome(e: Evidence, f: Evidence, x: Ref, s: Decl)
    requires SameRecord(e, f) && e.Here(x) && e.ModelMade(x) && f.Here(x) && f.ModelMade(x)
    requires e.Viable(x, s) && f.Viable(x, s) && e.AllThere(x, s.inputs) && f.AllThere(x, s.inputs)
    requires !s.writes && e.DatastateOf(x) in s.outputs ==> RunsAlikeOn(e, f, x, s)
    ensures f.Outcome(x, s) == e.Outcome(x, s)
  {
    SameInputs(e, f, x, s.inputs);
    SamePlace(e, f, x);
    OnlyItsOwnRunDecides(e.scope, f.scope, s, e.InputValues(x, s.inputs), e.RunOf(x).nodes[x.instance].value, e.DatastateOf(x));
  }

  lemma SameCases(e: Evidence, f: Evidence, x: Ref)
    requires SameRecord(e, f) && e.Here(x) && e.ModelMade(x) && f.Here(x) && f.ModelMade(x) && SubstitutesRunAlike(e, f, x)
    ensures f.CasesOf(x) == e.CasesOf(x)
  {
    SameReader(e, f, x);
    forall s | s in e.SubstitutesOf(x) ensures f.CaseOf(x, s) == e.CaseOf(x, s) {
      SameCase(e, f, x, s);
    }
  }

  /** What a value needs proven first is no matter of what runs. */
  lemma SameDeps(e: Evidence, f: Evidence, x: Ref)
    requires SameRecord(e, f) && e.Here(x)
    ensures f.Here(x) && f.Deps(x) == e.Deps(x)
  {
    SamePlace(e, f, x);
    if e.ModelMade(x) {
      SameReader(e, f, x);
      forall s | s in e.SubstitutesOf(x) ensures f.Refusal(x, s) == e.Refusal(x, s) && f.InputsFor(x, s.inputs) == e.InputsFor(x, s.inputs) {
        SameRefusal(e, f, x, s);
        SameInputs(e, f, x, s.inputs);
      }
      forall y ensures y in f.Deps(x) <==> y in e.Deps(x) {}
    }
  }

  lemma SameNeeds(e: Evidence, f: Evidence)
    requires SameRecord(e, f)
    ensures f.Needs() == e.Needs()
  {
    forall x ensures f.Here(x) == e.Here(x) {}
    forall x | x in e.l.own && e.Here(x) ensures f.Here(x) && f.Deps(x) == e.Deps(x) { SameDeps(e, f, x); }
  }

  lemma SameSoundness(e: Evidence, f: Evidence, x: Ref)
    requires SameRecord(e, f) && (e.Here(x) && e.ModelMade(x) ==> SubstitutesRunAlike(e, f, x))
    ensures f.Sound(x) <==> e.Sound(x)
  {
    if e.Here(x) {
      SamePlace(e, f, x);
      if e.ModelMade(x) {
        SameCases(e, f, x);
      } else {
        SameStops(e, f, x);
      }
    }
  }

  lemma SameStops(e: Evidence, f: Evidence, x: Ref)
    requires SameRecord(e, f) && e.Here(x) && f.Here(x) && !e.ModelMade(x) && !f.ModelMade(x)
    ensures f.LocalStops(x) == e.LocalStops(x)
  {
    assert f.ProducerOf(x) == e.ProducerOf(x);
    assert f.AnswerStops(x) == e.AnswerStops(x);
    if e.ProducerOf(x).Some? {
      assert f.StepStops(x) == e.StepStops(x);
    } else {
      assert f.StartStops(x) == e.StartStops(x);
    }
  }

  /** Whether something is proven model-free is the same for any two dispatchers that agree on the substitutes of what it
      rests on: what else they would do, for the model's readers above all, makes no difference. */
  lemma ProofIgnoresTheModel(e: Evidence, f: Evidence, sources: set<Ref>)
    requires SameRecord(e, f)
    requires forall x | e.Under(sources, x) && e.Here(x) && e.ModelMade(x) :: SubstitutesRunAlike(e, f, x)
    ensures f.Proven(sources) <==> e.Proven(sources)
  {
    SameNeeds(e, f);
    forall x ensures f.Under(sources, x) == e.Under(sources, x) && f.OnLoop(x) == e.OnLoop(x) {}
    forall x | e.Under(sources, x) ensures f.Sound(x) == e.Sound(x) { SameSoundness(e, f, x); }
  }
}
