/** What a proof means in terms of the run graphs and of the substitutes' runs: when a value is proven, and what stops it. */
module ProofRecords {
  import opened Identifiers
  import opened Graphs
  import opened Folding
  import opened Episodes
  import opened CopyClasses
  import opened Lineages
  import opened LineageRecords
  import opened Substitutes
  import opened Tallies
  import opened Proofs

  // ---- a value the model made ----

  /** A step made it that is recorded as consulting the model, or put down a reading of it by the model. */
  ghost predicate MadeByModel(runs: Episode, x: Ref)
    requires IsEpisodeValue(runs, x)
  {
    var run := runs[x.graph];
    exists p :: run.Producer(x.instance) == Some(p) &&
      ((exists e :: run.Declaration(p) == Some(e) && e.consultsLlm == Some(true))
       || exists s :: (p, s) in run.produces && run.RecordsReading(s, run.nodes[x.instance].datastate))
  }

  lemma HereSays(e: Evidence, h: Height, x: Ref)
    requires Built(e.l, h)
    ensures e.Here(x) <==> IsEpisodeValue(e.l.runs, x)
    ensures e.Here(x) ==> e.l.own[x] == OwnFacts(e.l.runs, x.graph, x.instance)
  {
    BuiltSays(e.l, h, x);
  }

  lemma ModelMadeExactly(e: Evidence, h: Height, x: Ref)
    requires Built(e.l, h) && e.Here(x)
    ensures e.ModelMade(x) <==> MadeByModel(e.l.runs, x)
  {
    HereSays(e, h, x);
    MarksExactly(e.l.runs, x);
    HowsMeet(e.l.own[x].hows);
    assert MarkIs(e.l.runs, x, ConsultsLlm) <==> ConsultsLlm in e.l.own[x].hows;
    assert MarkIs(e.l.runs, x, ReadByModel) <==> ReadByModel in e.l.own[x].hows;
  }

  lemma HowsMeet(hows: set<How>)
    ensures hows * MODEL_MADE != {} <==> ConsultsLlm in hows || ReadByModel in hows
  {
    assert ConsultsLlm in hows ==> ConsultsLlm in hows * MODEL_MADE;
    assert ReadByModel in hows ==> ReadByModel in hows * MODEL_MADE;
  }

  // ---- what a substitute is handed ----

  /** None of some CONSUMES edges leads into step `p` from a value of `d`. */
  ghost predicate NoneFor(run: Run, es: seq<(Iri, Iri)>, p: Iri, d: Iri) { forall e | e in es :: !(e.1 == p && run.Holds(e.0, d)) }

  /** One does, from `id`, and no other. */
  ghost predicate OnceIn(run: Run, es: seq<(Iri, Iri)>, p: Iri, d: Iri, id: Iri) {
    run.Holds(id, d) && exists before, after :: es == before + [(id, p)] + after && NoneFor(run, before, p, d) && NoneFor(run, after, p, d)
  }

  /** The step consumed `d` once, from `id`. */
  ghost predicate ConsumedOnce(run: Run, p: Iri, d: Iri, id: Iri) {
    forall key {:trigger Asked(key)} :: Asked(key) && key == CONSUMED ==> OnceIn(run, run.consumes, p, d, id)
  }

  const CONSUMED := 21

  /** Each of some DataStates is consumed once, and `handed` has the value recorded. */
  ghost predicate HandedOver(run: Run, p: Iri, inputs: seq<Iri>, handed: map<Iri, Datum>) {
    && (forall d :: d in handed <==> d in inputs)
    && forall d | d in handed :: Recorded(run, p, d, handed[d])
  }

  /** The step consumed `d` once, as a value that holds `v`. */
  ghost predicate Recorded(run: Run, p: Iri, d: Iri, v: Datum) {
    exists id :: ConsumedOnce(run, p, d, id) && id in run.nodes && run.nodes[id] == ValueNode(d, v)
  }

  function HeldBy(run: Run, e: (Iri, Iri), p: Iri, d: Iri): seq<Iri> { if e.1 == p && run.Holds(e.0, d) then [e.0] else [] }

  function Held(run: Run, es: seq<(Iri, Iri)>, p: Iri, d: Iri): seq<Iri> {
    if es == [] then [] else HeldBy(run, es[0], p, d) + Held(run, es[1..], p, d)
  }

  lemma {:induction false} HeldIs(run: Run, es: seq<(Iri, Iri)>, p: Iri, d: Iri)
    ensures HoldersIn(run, run.SourcesIn(es, p), d) == Held(run, es, p, d)
  {
    if es != [] {
      HeldIs(run, es[1..], p, d);
      HoldersOfMore(run, if es[0].1 == p then [es[0].0] else [], run.SourcesIn(es[1..], p), d);
    }
  }

  lemma {:induction false} HeldMore(run: Run, a: seq<(Iri, Iri)>, b: seq<(Iri, Iri)>, p: Iri, d: Iri)
    ensures Held(run, a + b, p, d) == Held(run, a, p, d) + Held(run, b, p, d)
  {
    if a == [] {
      assert a + b == b;
    } else {
      HeldMore(run, a[1..], b, p, d);
      FirstOfBoth(a, b);
      Regrouped(HeldBy(run, a[0], p, d), Held(run, a[1..], p, d), Held(run, b, p, d));
    }
  }

  lemma FirstOfBoth<T>(a: seq<T>, b: seq<T>)
    requires a != []
    ensures a + b != [] && (a + b)[0] == a[0] && (a + b)[1..] == a[1..] + b
  {}

  lemma Regrouped<T>(a: seq<T>, b: seq<T>, c: seq<T>)
    ensures a + (b + c) == a + b + c
  {}

  lemma {:induction false} HeldNone(run: Run, es: seq<(Iri, Iri)>, p: Iri, d: Iri)
    ensures Held(run, es, p, d) == [] <==> NoneFor(run, es, p, d)
  {
    if es != [] {
      HeldNone(run, es[1..], p, d);
      assert es == [es[0]] + es[1..];
    }
  }

  lemma OnceIsHeld(run: Run, before: seq<(Iri, Iri)>, after: seq<(Iri, Iri)>, p: Iri, d: Iri, id: Iri)
    requires run.Holds(id, d) && NoneFor(run, before, p, d) && NoneFor(run, after, p, d)
    ensures Held(run, before + [(id, p)] + after, p, d) == [id]
  {
    HeldNone(run, before, p, d);
    HeldNone(run, after, p, d);
    HeldMore(run, before + [(id, p)], after, p, d);
    HeldMore(run, before, [(id, p)], p, d);
    assert Held(run, [(id, p)], p, d) == [id] by { assert [(id, p)][1..] == []; }
  }

  lemma {:induction false} HeldIsOnce(run: Run, es: seq<(Iri, Iri)>, p: Iri, d: Iri, id: Iri)
    returns (before: seq<(Iri, Iri)>, after: seq<(Iri, Iri)>)
    requires Held(run, es, p, d) == [id]
    ensures run.Holds(id, d) && es == before + [(id, p)] + after && NoneFor(run, before, p, d) && NoneFor(run, after, p, d)
  {
    if HeldBy(run, es[0], p, d) != [] {
      assert Held(run, es[1..], p, d) == Held(run, es, p, d)[1..];
      HeldNone(run, es[1..], p, d);
      before, after := [], es[1..];
      assert Held(run, es, p, d)[0] == es[0].0;
      assert es[0] == (id, p);
    } else {
      assert Held(run, es, p, d) == Held(run, es[1..], p, d);
      before, after := HeldIsOnce(run, es[1..], p, d, id);
      before := [es[0]] + before;
    }
  }

  lemma HeldOnce(run: Run, es: seq<(Iri, Iri)>, p: Iri, d: Iri, id: Iri)
    ensures HoldersIn(run, run.SourcesIn(es, p), d) == [id] <==> OnceIn(run, es, p, d, id)
  {
    HeldIs(run, es, p, d);
    if OnceIn(run, es, p, d, id) {
      var before, after :| es == before + [(id, p)] + after && NoneFor(run, before, p, d) && NoneFor(run, after, p, d);
      OnceIsHeld(run, before, after, p, d, id);
    }
    if Held(run, es, p, d) == [id] { var before, after := HeldIsOnce(run, es, p, d, id); }
  }

  lemma {:induction false} HoldersOfMore(run: Run, a: seq<Iri>, b: seq<Iri>, d: Iri)
    ensures HoldersIn(run, a + b, d) == HoldersIn(run, a, d) + HoldersIn(run, b, d)
  {
    if a == [] {
      assert a + b == b;
    } else {
      assert (a + b)[1..] == a[1..] + b;
      HoldersOfMore(run, a[1..], b, d);
    }
  }

  lemma ConsumedAsExactly(e: Evidence, x: Ref, p: Iri, d: Iri)
    requires e.Here(x) && e.ModelMade(x) && e.ProducerOf(x) == Some(p)
    ensures |e.ConsumedAs(x, d)| == 1 <==> exists id :: ConsumedOnce(e.RunOf(x), p, d, id)
    ensures forall id :: e.ConsumedAs(x, d) == [id] <==> ConsumedOnce(e.RunOf(x), p, d, id)
  {
    var run := e.RunOf(x);
    forall id ensures e.ConsumedAs(x, d) == [id] <==> ConsumedOnce(run, p, d, id) {
      HeldOnce(run, run.consumes, p, d, id);
      assert Asked(CONSUMED);
    }
    if |e.ConsumedAs(x, d)| == 1 { assert e.ConsumedAs(x, d) == [e.ConsumedAs(x, d)[0]]; }
  }

  // ---- what comes of a substitute ----

  ghost predicate Withholds(run: Run, p: Iri, d: Iri) {
    exists e, answers :: run.Declaration(p) == Some(e) && e.answerInputs == Some(answers) && d in answers
  }

  /** It is looked into: it does not read the mental model, still pairs with the reader, and takes no answer that the run
      withheld from the model. */
  ghost predicate Considered(scope: Scope, run: Run, p: Iri, s: Decl)
    requires run.IsCapacity(p)
  {
    !s.readsMm && scope.StandsInFor(s, run.nodes[p].capacity) && forall d | d in s.inputs :: !Withholds(run, p, d)
  }

  /** All it takes was consumed by the step, each DataState once. */
  ghost predicate InputsThere(run: Run, p: Iri, s: Decl) { forall d | d in s.inputs :: exists id :: ConsumedOnce(run, p, d, id) }

  ghost predicate Runnable(scope: Scope, run: Run, p: Iri, s: Decl)
    requires run.IsCapacity(p)
  {
    Considered(scope, run, p, s) && InputsThere(run, p, s)
  }

  /** It ran on what the step consumed and made the DataState, and the check came to `verdict` on the value recorded. */
  ghost predicate Ran(scope: Scope, run: Run, p: Iri, id: Iri, s: Decl, verdict: bool) {
    && !s.writes
    && exists handed, made, ds, recorded ::
      && HandedOver(run, p, s.inputs, handed) && scope.dispatch(s.iri, handed) == Some(made)
      && id in run.nodes && run.nodes[id] == ValueNode(ds, recorded) && ds in s.outputs && ds in made
      && scope.judge(recorded, made[ds]) == Some(verdict)
  }

  lemma RefusalsExactly(e: Evidence, x: Ref, p: Iri, s: Decl)
    requires e.Here(x) && e.ModelMade(x) && e.ProducerOf(x) == Some(p) && s in e.SubstitutesOf(x)
    ensures e.Viable(x, s) <==> Considered(e.scope, e.RunOf(x), p, s) && InputsThere(e.RunOf(x), p, s)
    ensures e.Refusal(x, s) == Some(InputsNotInTheGraph) <==> Considered(e.scope, e.RunOf(x), p, s) && !InputsThere(e.RunOf(x), p, s)
  {
    WithheldExactly(e, x, p);
    ThereExactly(e, x, p, s);
    e.scope.PairsAre(s, e.ReaderOf(x));
    RefusalsNamed(s, e.scope.Pairs(s, e.ReaderOf(x)), e.Withheld(x), e.AllThere(x, s.inputs));
  }

  lemma WithheldExactly(e: Evidence, x: Ref, p: Iri)
    requires e.Here(x) && e.ModelMade(x) && e.ProducerOf(x) == Some(p)
    ensures forall d :: d in e.Withheld(x) <==> Withholds(e.RunOf(x), p, d)
  {}

  lemma ThereExactly(e: Evidence, x: Ref, p: Iri, s: Decl)
    requires e.Here(x) && e.ModelMade(x) && e.ProducerOf(x) == Some(p)
    ensures e.AllThere(x, s.inputs) <==> InputsThere(e.RunOf(x), p, s)
  {
    forall d ensures |e.ConsumedAs(x, d)| == 1 <==> exists id :: ConsumedOnce(e.RunOf(x), p, d, id) { ConsumedAsExactly(e, x, p, d); }
  }

  lemma HandedExactly(e: Evidence, x: Ref, p: Iri, s: Decl, handed: map<Iri, Datum>)
    requires e.Here(x) && e.ModelMade(x) && e.ProducerOf(x) == Some(p) && e.AllThere(x, s.inputs)
    ensures handed == e.InputValues(x, s.inputs) <==> HandedOver(e.RunOf(x), p, s.inputs, handed)
  {
    var values := e.InputValues(x, s.inputs);
    forall d | d in s.inputs ensures RecordedAs(e.RunOf(x), p, d, values[d]) { InputExactly(e, x, p, d); }
    OneHandedOver(e.RunOf(x), p, s.inputs, values, handed);
  }

  ghost predicate RecordedAs(run: Run, p: Iri, d: Iri, value: Datum) { forall v :: Recorded(run, p, d, v) <==> v == value }

  lemma OneHandedOver(run: Run, p: Iri, inputs: seq<Iri>, values: map<Iri, Datum>, handed: map<Iri, Datum>)
    requires (forall d :: d in values <==> d in inputs) && forall d | d in inputs :: RecordedAs(run, p, d, values[d])
    ensures handed == values <==> HandedOver(run, p, inputs, handed)
  {
    forall d | d in inputs ensures forall v :: Recorded(run, p, d, v) <==> v == values[d] { assert RecordedAs(run, p, d, values[d]); }
    if HandedOver(run, p, inputs, handed) {
      assert forall d :: d in handed <==> d in values;
      assert forall d | d in handed :: handed[d] == values[d];
    }
  }

  lemma InputExactly(e: Evidence, x: Ref, p: Iri, d: Iri)
    requires e.Here(x) && e.ModelMade(x) && e.ProducerOf(x) == Some(p) && |e.ConsumedAs(x, d)| == 1
    ensures RecordedAs(e.RunOf(x), p, d, e.InputValue(x, d))
  {
    var run, id := e.RunOf(x), e.ConsumedAs(x, d)[0];
    ConsumedAsExactly(e, x, p, d);
    assert e.ConsumedAs(x, d) == [id];
    assert id in e.ConsumedAs(x, d);
    assert ConsumedOnce(run, p, d, id) && run.nodes[id] == ValueNode(d, e.InputValue(x, d));
  }

  /** The case of a substitute, from the record and from what running it gives. */
  lemma CaseExactly(e: Evidence, x: Ref, p: Iri, s: Decl)
    requires e.Here(x) && e.ModelMade(x) && e.ProducerOf(x) == Some(p) && s in e.SubstitutesOf(x)
    ensures var c := e.CaseOf(x, s); var run := e.RunOf(x);
      && (c.Judged? <==> Considered(e.scope, run, p, s) && InputsThere(run, p, s))
      && (c.Missing() <==> Considered(e.scope, run, p, s) && !InputsThere(run, p, s))
      && (c.Agrees() <==> Considered(e.scope, run, p, s) && Ran(e.scope, run, p, x.instance, s, true))
      && (c.Disagrees() <==> Considered(e.scope, run, p, s) && Ran(e.scope, run, p, x.instance, s, false))
  {
    RefusalsExactly(e, x, p, s);
    if e.Viable(x, s) {
      OutcomeExactly(e, x, p, s, true);
      OutcomeExactly(e, x, p, s, false);
    } else {
      if Ran(e.scope, e.RunOf(x), p, x.instance, s, true) { RanIsThere(e, x, p, s, true); }
      if Ran(e.scope, e.RunOf(x), p, x.instance, s, false) { RanIsThere(e, x, p, s, false); }
    }
  }

  lemma OutcomeExactly(e: Evidence, x: Ref, p: Iri, s: Decl, v: bool)
    requires e.Here(x) && e.ModelMade(x) && e.ProducerOf(x) == Some(p) && e.Viable(x, s)
    ensures e.Outcome(x, s).agrees == Some(v) <==> Ran(e.scope, e.RunOf(x), p, x.instance, s, v)
  {
    if e.Outcome(x, s).agrees == Some(v) { AgreeingIsRan(e, x, p, s, v); }
    if Ran(e.scope, e.RunOf(x), p, x.instance, s, v) { RanIsTheOutcome(e, x, p, s, v); }
  }

  lemma AgreeingIsRan(e: Evidence, x: Ref, p: Iri, s: Decl, v: bool)
    requires e.Here(x) && e.ModelMade(x) && e.ProducerOf(x) == Some(p) && e.Viable(x, s) && e.Outcome(x, s).agrees == Some(v)
    ensures Ran(e.scope, e.RunOf(x), p, x.instance, s, v)
  {
    var handed, ds, recorded := e.InputValues(x, s.inputs), e.DatastateOf(x), e.RunOf(x).nodes[x.instance].value;
    HandedExactly(e, x, p, s, handed);
    VerdictIsTheJudges(e.scope, s, handed, recorded, ds);
    assert e.RunOf(x).nodes[x.instance] == ValueNode(ds, recorded);
  }

  lemma RanIsTheOutcome(e: Evidence, x: Ref, p: Iri, s: Decl, v: bool)
    requires e.Here(x) && e.ModelMade(x) && e.ProducerOf(x) == Some(p) && e.Viable(x, s) && Ran(e.scope, e.RunOf(x), p, x.instance, s, v)
    ensures e.Outcome(x, s).agrees == Some(v)
  {
    var run, id := e.RunOf(x), x.instance;
    var handed, made, ds, recorded :| HandedOver(run, p, s.inputs, handed) && e.scope.dispatch(s.iri, handed) == Some(made)
      && run.nodes[id] == ValueNode(ds, recorded) && ds in s.outputs && ds in made && e.scope.judge(recorded, made[ds]) == Some(v);
    HandedExactly(e, x, p, s, handed);
    VerdictIsTheJudges(e.scope, s, handed, recorded, ds);
  }

  lemma RanIsThere(e: Evidence, x: Ref, p: Iri, s: Decl, v: bool)
    requires e.Here(x) && e.ModelMade(x) && e.ProducerOf(x) == Some(p) && Ran(e.scope, e.RunOf(x), p, x.instance, s, v)
    ensures InputsThere(e.RunOf(x), p, s)
  {
    var run := e.RunOf(x);
    var handed :| HandedOver(run, p, s.inputs, handed);
  }

  // ---- when a value stands ----

  /** Some substitute of the reader comes to `verdict`. */
  ghost predicate SomeRan(scope: Scope, run: Run, p: Iri, id: Iri, verdict: bool)
    requires run.IsCapacity(p)
  {
    exists s :: s in scope.SubstitutesFor(run.nodes[p].capacity) && Considered(scope, run, p, s) && Ran(scope, run, p, id, s, verdict)
  }

  ghost predicate NoneMissing(scope: Scope, run: Run, p: Iri)
    requires run.IsCapacity(p)
  {
    forall s | s in scope.SubstitutesFor(run.nodes[p].capacity) && Considered(scope, run, p, s) :: InputsThere(run, p, s)
  }

  /** A value the model made stands when a substitute re-derives it, none comes to anything else, and none lacks its inputs. */
  ghost predicate Rederives(scope: Scope, run: Run, p: Iri, id: Iri)
    requires run.IsCapacity(p)
  {
    SomeRan(scope, run, p, id, true) && !SomeRan(scope, run, p, id, false) && NoneMissing(scope, run, p)
  }

  lemma CasesExactly(e: Evidence, x: Ref, p: Iri)
    requires e.Here(x) && e.ModelMade(x) && e.ProducerOf(x) == Some(p)
    ensures SomeAgrees(e.CasesOf(x)) <==> SomeRan(e.scope, e.RunOf(x), p, x.instance, true)
    ensures SomeDisagrees(e.CasesOf(x)) <==> SomeRan(e.scope, e.RunOf(x), p, x.instance, false)
    ensures SomeMissing(e.CasesOf(x)) <==> !NoneMissing(e.scope, e.RunOf(x), p)
  {
    var subs, cases := e.SubstitutesOf(x), e.CasesOf(x);
    forall s | s in subs ensures e.CaseOf(x, s) in cases {
      var i :| 0 <= i < |subs| && subs[i] == s;
      assert cases[i] == e.CaseOf(x, s);
    }
    forall c | c in cases ensures exists s :: s in subs && c == e.CaseOf(x, s) {
      var i :| 0 <= i < |cases| && cases[i] == c;
      assert subs[i] in subs;
    }
    forall s | s in subs ensures CaseFits(e, x, p, s) { CaseExactly(e, x, p, s); }
    CasesFit(e, x, p, subs, cases);
  }

  ghost predicate CaseFits(e: Evidence, x: Ref, p: Iri, s: Decl)
    requires e.Here(x) && e.ModelMade(x) && e.ProducerOf(x) == Some(p) && s in e.SubstitutesOf(x)
  {
    var c, run := e.CaseOf(x, s), e.RunOf(x);
    && (c.Missing() <==> Considered(e.scope, run, p, s) && !InputsThere(run, p, s))
    && (c.Agrees() <==> Considered(e.scope, run, p, s) && Ran(e.scope, run, p, x.instance, s, true))
    && (c.Disagrees() <==> Considered(e.scope, run, p, s) && Ran(e.scope, run, p, x.instance, s, false))
  }

  lemma CasesFit(e: Evidence, x: Ref, p: Iri, subs: seq<Decl>, cases: seq<Case>)
    requires e.Here(x) && e.ModelMade(x) && e.ProducerOf(x) == Some(p) && subs == e.SubstitutesOf(x)
    requires forall s | s in subs :: CaseFits(e, x, p, s) && e.CaseOf(x, s) in cases
    requires forall c | c in cases :: exists s :: s in subs && c == e.CaseOf(x, s)
    ensures SomeAgrees(cases) <==> SomeRan(e.scope, e.RunOf(x), p, x.instance, true)
    ensures SomeDisagrees(cases) <==> SomeRan(e.scope, e.RunOf(x), p, x.instance, false)
    ensures SomeMissing(cases) <==> !NoneMissing(e.scope, e.RunOf(x), p)
  {}

  /** Something it rests on was made by the model: on a chain of draws, or a copy of one that is. */
  ghost predicate RestsOnTheModel(runs: Episode, x: Ref) {
    exists v, m :: DescendsFrom(runs, x, v) && CopiesOf(runs, m, v) && IsEpisodeValue(runs, m) && MadeByModel(runs, m)
  }

  /** A copy of it was taken as the model's answer, and nothing it rests on was made by the model. */
  ghost predicate LooseAnswer(runs: Episode, x: Ref) {
    && (exists m :: CopiesOf(runs, m, x) && IsEpisodeValue(runs, m) && MarkIs(runs, m, AnswerInput))
    && !RestsOnTheModel(runs, x)
  }

  lemma CopiesExactly(l: Lineage, h: Height, m: Ref, v: Ref)
    requires Built(l, h) && v in l.own
    ensures CopiesOf(l.runs, m, v) <==> m in l.own && SameValue(CopyPairs(l.own), m, v)
  {
    if CopiesOf(l.runs, m, v) {
      var chain :| CopyChain(l.runs, chain) && chain[0] == v && chain[|chain| - 1] == m;
      CopiesAreSame(l, h, chain, |chain| - 1);
    }
    if m in l.own && SameValue(CopyPairs(l.own), m, v) { SameIsCopies(l, h, m, v); }
  }

  lemma DescendsExactly(l: Lineage, h: Height, r: Ref, v: Ref)
    requires Built(l, h) && r in l.own
    ensures DescendsFrom(l.runs, r, v) <==> v in l.own && Reaches(Parents(l.own), r, v)
  {
    if DescendsFrom(l.runs, r, v) {
      var chain :| DrawnChain(l.runs, chain) && chain[0] == r && chain[|chain| - 1] == v;
      ChainReaches(l, h, chain, |chain| - 1);
    }
    if v in l.own && Reaches(Parents(l.own), r, v) { ReachesDescends(l, h, r, v); }
  }

  lemma HowsExactly(e: Evidence, h: Height, m: Ref)
    requires Built(e.l, h) && m in e.l.own
    ensures IsEpisodeValue(e.l.runs, m)
    ensures e.l.own[m].hows * MODEL_MADE != {} <==> MadeByModel(e.l.runs, m)
    ensures e.l.own[m].hows * {AnswerInput} != {} <==> MarkIs(e.l.runs, m, AnswerInput)
  {
    BuiltSays(e.l, h, m);
    MarksExactly(e.l.runs, m);
    HowsMeet(e.l.own[m].hows);
    assert AnswerInput in e.l.own[m].hows ==> AnswerInput in e.l.own[m].hows * {AnswerInput};
    assert MarkIs(e.l.runs, m, ConsultsLlm) <==> ConsultsLlm in e.l.own[m].hows;
    assert MarkIs(e.l.runs, m, ReadByModel) <==> ReadByModel in e.l.own[m].hows;
  }

  lemma RestsExactly(e: Evidence, h: Height, x: Ref)
    requires Built(e.l, h) && e.Here(x)
    ensures e.RestsOnModelMade(x) <==> RestsOnTheModel(e.l.runs, x)
  {
    var l := e.l;
    if e.RestsOnModelMade(x) {
      var m :| m in ModelsOf(l, x) && m in l.own && l.own[m].hows * MODEL_MADE != {};
      var v :| v in l.own && m in MarksOf(l, v) && Reaches(Parents(l.own), x, v);
      DescendsExactly(l, h, x, v);
      CopiesExactly(l, h, m, v);
      HowsExactly(e, h, m);
    }
    if RestsOnTheModel(l.runs, x) {
      var v, m :| DescendsFrom(l.runs, x, v) && CopiesOf(l.runs, m, v) && IsEpisodeValue(l.runs, m) && MadeByModel(l.runs, m);
      DescendsExactly(l, h, x, v);
      CopiesExactly(l, h, m, v);
      HowsExactly(e, h, m);
      assert m in MarksOf(l, v);
      assert m in ModelsOf(l, x);
    }
  }

  lemma AnswersExactly(e: Evidence, h: Height, x: Ref)
    requires Built(e.l, h) && e.Here(x)
    ensures e.AnswerStops(x) == if LooseAnswer(e.l.runs, x) then {ModelAnswerNotExcisable} else {}
  {
    RestsExactly(e, h, x);
    forall m ensures m in MarksOf(e.l, x) && e.l.own[m].hows * {AnswerInput} != {} <==>
      CopiesOf(e.l.runs, m, x) && IsEpisodeValue(e.l.runs, m) && MarkIs(e.l.runs, m, AnswerInput)
    {
      CopiesExactly(e.l, h, m, x);
      if m in e.l.own { HowsExactly(e, h, m); }
    }
  }

  /** A step's reads are recorded, and the mental model is not among them. */
  predicate ReadsClean(e: Entry) { e.readsRoles.Some? && e.readsMm == Some(false) }

  /** What a value must be for its own part, whatever it rests on. A value the model made re-derives. Any other was made by a
      step that was recorded as reading no mental model and consumed no origin record; or it was given, interpreted without the
      model by steps that read none, or carried over. */
  ghost predicate Stands(scope: Scope, runs: Episode, x: Ref)
    requires IsEpisodeValue(runs, x)
  {
    var run, id := runs[x.graph], x.instance;
    && (forall k :: !GapIs(runs, x, k))
    && match run.Producer(id)
       case Some(p) =>
         if MadeByModel(runs, x) then Rederives(scope, run, p, id)
         else !LooseAnswer(runs, x) && StepStands(run, p)
       case None => !LooseAnswer(runs, x) && StartStands(run.OriginOf(run.nodes[id].datastate))
  }

  ghost predicate StepStands(run: Run, p: Iri) {
    (exists e :: run.Declaration(p) == Some(e) && ReadsClean(e)) && forall c | (c, p) in run.consumes :: !run.IsRecord(c)
  }

  ghost predicate StartStands(origin: Option<Origin>) {
    match origin
    case Some(Interpreted(used, snapshot)) =>
      (used == None || used == Some([])) && exists es :: snapshot == Some(es) && forall e | e in es :: ReadsClean(e)
    case _ => true
  }

  /** A value is sound exactly when it stands. */
  lemma SoundExactly(e: Evidence, h: Height, x: Ref)
    requires Built(e.l, h) && e.Here(x)
    ensures e.Sound(x) <==> Stands(e.scope, e.l.runs, x)
  {
    ModelMadeExactly(e, h, x);
    if e.ModelMade(x) { MadeStands(e, h, x); } else { PlainStands(e, h, x); }
  }

  lemma MadeStands(e: Evidence, h: Height, x: Ref)
    requires Built(e.l, h) && e.Here(x) && e.ModelMade(x) && MadeByModel(e.l.runs, x)
    ensures e.Sound(x) <==> Stands(e.scope, e.l.runs, x)
  {
    GapsAre(e, h, x);
    RereadSoundExactly(e, h, x);
  }

  lemma PlainStands(e: Evidence, h: Height, x: Ref)
    requires Built(e.l, h) && e.Here(x) && !e.ModelMade(x) && !MadeByModel(e.l.runs, x)
    ensures e.Sound(x) <==> Stands(e.scope, e.l.runs, x)
  {
    match e.ProducerOf(x)
    case Some(p) => PlainStepStands(e, h, x, p);
    case None => PlainStartStands(e, h, x);
  }

  lemma PlainStepStands(e: Evidence, h: Height, x: Ref, p: Iri)
    requires Built(e.l, h) && e.Here(x) && !e.ModelMade(x) && !MadeByModel(e.l.runs, x) && e.ProducerOf(x) == Some(p)
    ensures e.Sound(x) <==> Stands(e.scope, e.l.runs, x)
  {
    GapsAre(e, h, x);
    AnswersExactly(e, h, x);
    PlainSoundExactly(e, h, x);
    if forall k :: !GapIs(e.l.runs, x, k) { DeclaredUnlessGap(e.l.runs, x, p); }
  }

  lemma PlainStartStands(e: Evidence, h: Height, x: Ref)
    requires Built(e.l, h) && e.Here(x) && !e.ModelMade(x) && e.ProducerOf(x).None?
    ensures e.Sound(x) <==> Stands(e.scope, e.l.runs, x)
  {
    GapsAre(e, h, x);
    AnswersExactly(e, h, x);
    PlainSoundExactly(e, h, x);
  }

  lemma DeclaredUnlessGap(runs: Episode, x: Ref, p: Iri)
    requires IsEpisodeValue(runs, x) && runs[x.graph].Producer(x.instance) == Some(p) && !GapIs(runs, x, DeclarationsNotRecorded)
    ensures runs[x.graph].Declaration(p).Some?
  {}

  lemma GapsAre(e: Evidence, h: Height, x: Ref)
    requires Built(e.l, h) && e.Here(x)
    ensures e.l.own[x].gaps == {} <==> forall k :: !GapIs(e.l.runs, x, k)
  {
    BuiltSays(e.l, h, x);
    GapsExactly(e.l.runs, x);
  }

  lemma RereadSoundExactly(e: Evidence, h: Height, x: Ref)
    requires Built(e.l, h) && e.Here(x) && e.ModelMade(x)
    ensures e.Sound(x) <==> e.l.own[x].gaps == {} && Rederives(e.scope, e.RunOf(x), e.ProducerOf(x).value, x.instance)
  {
    var cs := e.CasesOf(x);
    CasesExactly(e, x, e.ProducerOf(x).value);
    assert SomeAgrees(cs) ==> SomeJudged(cs);
    assert SomeDisagrees(cs) ==> SomeJudged(cs);
    RereadStopsAre(e, x);
    GapStops(e, x);
  }

  lemma RereadStopsAre(e: Evidence, x: Ref)
    requires e.Here(x) && e.ModelMade(x)
    ensures var cs := e.CasesOf(x); e.RereadStops(x) == {} <==> cs != [] && !SomeMissing(cs) && SomeJudged(cs)
    ensures var cs := e.CasesOf(x); SomeJudged(cs) ==> (e.RunStops(x) == {} <==> !SomeDisagrees(cs) && SomeAgrees(cs))
  {
    var cs, stops := e.CasesOf(x), e.RereadStops(x);
    assert cs == [] ==> NotYetExcisable in stops;
    assert cs != [] && SomeMissing(cs) ==> NotInTheGroundingGraph in stops;
    assert cs != [] && !SomeJudged(cs) ==> NoSubstituteAgreed in stops;
    assert SomeDisagrees(cs) ==> SubstituteDisagrees in VerdictStops(cs);
    assert !SomeDisagrees(cs) && !SomeAgrees(cs) ==> NoSubstituteAgreed in VerdictStops(cs);
  }

  lemma GapStops(e: Evidence, x: Ref)
    requires e.Here(x)
    ensures (set g | g in e.l.own[x].gaps :: LineageGap(g)) == {} <==> e.l.own[x].gaps == {}
  {
    var gaps := e.l.own[x].gaps;
    var stops := set g | g in gaps :: LineageGap(g);
    if g :| g in gaps { assert LineageGap(g) in stops; }
    if k :| k in stops { var g :| g in gaps && k == LineageGap(g); }
  }

  lemma PlainSoundExactly(e: Evidence, h: Height, x: Ref)
    requires Built(e.l, h) && e.Here(x) && !e.ModelMade(x)
    ensures e.Sound(x) <==>
      && e.l.own[x].gaps == {} && e.AnswerStops(x) == {}
      && match e.ProducerOf(x)
         case Some(p) =>
           && (forall d | e.RunOf(x).Declaration(p) == Some(d) :: ReadsClean(d))
           && forall c | (c, p) in e.RunOf(x).consumes :: !e.RunOf(x).IsRecord(c)
         case None => StartStands(e.RunOf(x).OriginOf(e.DatastateOf(x)))
  {
    GapStops(e, x);
    match e.ProducerOf(x) {
      case Some(p) => StepStopsExactly(e, x, p);
      case None => StartStopsExactly(e, x);
    }
  }

  lemma ReadStopsExactly(d: Entry)
    ensures ReadStops(d) == {} <==> ReadsClean(d)
  {
    assert d.readsRoles.None? || d.readsMm.None? ==> ReadsNotRecorded in ReadStops(d);
    assert d.readsRoles.Some? && d.readsMm == Some(true) ==> ReadsTheMentalModel in ReadStops(d);
  }

  lemma StepStopsExactly(e: Evidence, x: Ref, p: Iri)
    requires e.Here(x) && e.ProducerOf(x) == Some(p)
    ensures e.StepStops(x) == {} <==>
      && (forall d | e.RunOf(x).Declaration(p) == Some(d) :: ReadsClean(d))
      && forall c | (c, p) in e.RunOf(x).consumes :: !e.RunOf(x).IsRecord(c)
  {
    var run := e.RunOf(x);
    if run.Declaration(p).Some? { ReadStopsExactly(run.Declaration(p).value); }
    assert (exists c :: c in run.Consumed(p) && run.IsRecord(c)) <==> exists c :: (c, p) in run.consumes && run.IsRecord(c) by {
      if c :| (c, p) in run.consumes && run.IsRecord(c) { assert c in run.Consumed(p); }
    }
    assert (exists c :: c in run.Consumed(p) && run.IsRecord(c)) ==> ConsumedAnOriginRecord in e.StepStops(x);
  }

  lemma StartStopsExactly(e: Evidence, x: Ref)
    requires e.Here(x)
    ensures e.StartStops(x) == {} <==> StartStands(e.RunOf(x).OriginOf(e.DatastateOf(x)))
  {
    match e.RunOf(x).OriginOf(e.DatastateOf(x)) {
      case Some(Interpreted(used, snapshot)) =>
        assert used.Some? && used.value != [] ==> InterpretedWithTheModel in e.StartStops(x);
        if snapshot.None? {
          assert InterpretationNotRecorded in e.StartStops(x);
        } else {
          SnapshotStopsExactly(snapshot.value);
        }
      case _ =>
    }
  }

  lemma SnapshotStopsExactly(es: seq<Entry>)
    ensures (set e, k | e in es && k in ReadStops(e) :: k) == {} <==> forall e | e in es :: ReadsClean(e)
  {
    var stops := set e, k | e in es && k in ReadStops(e) :: k;
    forall e | e in es ensures ReadStops(e) == {} <==> ReadsClean(e) { ReadStopsExactly(e); }
    if e :| e in es && !ReadsClean(e) {
      var k :| k in ReadStops(e);
      assert k in stops;
    }
  }
}
