/** What a report says: which values a proof rests on, over the edges of the record, and what is read off them. */
module ProofMeanings {
  import opened Identifiers
  import opened Graphs
  import opened Folding
  import opened Episodes
  import opened CopyClasses
  import opened Lineages
  import opened LineageRecords
  import opened Substitutes
  import opened Tallies
  import opened Proofs
  import opened ProofSteps
  import opened ProofRecords

  // ---- what a value rests on ----

  /** Proving `x` asks for `y`: what `x` was drawn from; or, of a value the model made, what some substitute that can be run
      is handed in place of the model, and nothing else of what the step consumed. */
  ghost predicate AsksFor(scope: Scope, runs: Episode, x: Ref, y: Ref)
    requires IsEpisodeValue(runs, x)
  {
    forall key {:trigger Asked(key)} :: Asked(key) && key == ASKS ==>
      if MadeByModel(runs, x) then HandedInPlace(scope, runs[x.graph], x.instance, y.instance) && y.graph == x.graph else Drawn(runs, y, x)
  }

  const ASKS := 22

  ghost predicate HandedInPlace(scope: Scope, run: Run, id: Iri, from: Iri) {
    exists p, s, d ::
      && run.Producer(id) == Some(p) && s in scope.SubstitutesFor(run.nodes[p].capacity)
      && Runnable(scope, run, p, s) && d in s.inputs && ConsumedOnce(run, p, d, from)
  }

  lemma NeedsExactly(e: Evidence, h: Height, x: Ref, y: Ref)
    requires Built(e.l, h) && e.Here(x)
    ensures y in e.Deps(x) <==> AsksFor(e.scope, e.l.runs, x, y)
  {
    HereSays(e, h, x);
    ModelMadeExactly(e, h, x);
    assert Asked(ASKS);
    if e.ModelMade(x) { MadeNeeds(e, x, e.ProducerOf(x).value, y); } else { DrawnNeeds(e, x, y); }
  }

  lemma DrawnNeeds(e: Evidence, x: Ref, y: Ref)
    requires e.Here(x) && !e.ModelMade(x) && e.l.own[x] == OwnFacts(e.l.runs, x.graph, x.instance)
    ensures y in e.Deps(x) <==> Drawn(e.l.runs, y, x)
  {
    ParentsExactly(e.l.runs, x);
  }

  lemma MadeNeeds(e: Evidence, x: Ref, p: Iri, y: Ref)
    requires e.Here(x) && e.ModelMade(x) && e.ProducerOf(x) == Some(p)
    ensures y in e.Deps(x) <==> y.graph == x.graph && HandedInPlace(e.scope, e.RunOf(x), x.instance, y.instance)
  {
    HandedExactly(e, x, p, y.instance);
    if y in e.Deps(x) { NeedIsHanded(e, x, p, y); }
    if y.graph == x.graph && exists s, d :: Hands(e, x, p, s, d, y.instance) { HandedIsNeed(e, x, p, y); }
  }

  lemma HandedExactly(e: Evidence, x: Ref, p: Iri, id: Iri)
    requires e.Here(x) && e.ModelMade(x) && e.ProducerOf(x) == Some(p)
    ensures HandedInPlace(e.scope, e.RunOf(x), x.instance, id) <==> exists s, d :: Hands(e, x, p, s, d, id)
  {
    if HandedInPlace(e.scope, e.RunOf(x), x.instance, id) {
      var q, s, d :|
        && e.RunOf(x).Producer(x.instance) == Some(q) && s in e.scope.SubstitutesFor(e.RunOf(x).nodes[q].capacity)
        && Runnable(e.scope, e.RunOf(x), q, s) && d in s.inputs && ConsumedOnce(e.RunOf(x), q, d, id);
      assert Hands(e, x, p, s, d, id);
    }
  }

  lemma NeedIsHanded(e: Evidence, x: Ref, p: Iri, y: Ref)
    requires e.Here(x) && e.ModelMade(x) && e.ProducerOf(x) == Some(p) && y in e.Deps(x)
    ensures y.graph == x.graph && exists s, d :: Hands(e, x, p, s, d, y.instance)
  {
    var s, d :| s in e.SubstitutesOf(x) && e.Refusal(x, s).None? && d in s.inputs && y.graph == x.graph && y.instance in e.ConsumedAs(x, d);
    RefusalsExactly(e, x, p, s);
    OneOf(e, x, p, s, d);
    assert Hands(e, x, p, s, d, y.instance);
  }

  lemma HandedIsNeed(e: Evidence, x: Ref, p: Iri, y: Ref)
    requires e.Here(x) && e.ModelMade(x) && e.ProducerOf(x) == Some(p) && y.graph == x.graph
    requires exists s, d :: Hands(e, x, p, s, d, y.instance)
    ensures y in e.Deps(x)
  {
    var s, d :| Hands(e, x, p, s, d, y.instance);
    RefusalsExactly(e, x, p, s);
    OneOf(e, x, p, s, d);
    assert y == Ref(y.graph, y.instance);
    assert y in e.InputsFor(x, s.inputs);
  }

  ghost predicate Hands(e: Evidence, x: Ref, p: Iri, s: Decl, d: Iri, id: Iri)
    requires e.Here(x) && e.ModelMade(x) && e.ProducerOf(x) == Some(p)
  {
    s in e.SubstitutesOf(x) && Runnable(e.scope, e.RunOf(x), p, s) && d in s.inputs && ConsumedOnce(e.RunOf(x), p, d, id)
  }

  lemma OneOf(e: Evidence, x: Ref, p: Iri, s: Decl, d: Iri)
    requires e.Here(x) && e.ModelMade(x) && e.ProducerOf(x) == Some(p) && e.Viable(x, s) && d in s.inputs
    ensures forall id :: id in e.ConsumedAs(x, d) <==> ConsumedOnce(e.RunOf(x), p, d, id)
  {
    ConsumedAsExactly(e, x, p, d);
    assert |e.ConsumedAs(x, d)| == 1;
    assert e.ConsumedAs(x, d) == [e.ConsumedAs(x, d)[0]];
  }

  /** Each value asked for by the one before it. */
  ghost predicate AskedChain(scope: Scope, runs: Episode, chain: seq<Ref>) {
    && chain != [] && (forall r | r in chain :: IsEpisodeValue(runs, r))
    && forall i | 0 <= i < |chain| - 1 :: AsksFor(scope, runs, chain[i], chain[i + 1])
  }

  ghost predicate RestsOn(scope: Scope, runs: Episode, v: Ref, x: Ref) {
    exists chain :: AskedChain(scope, runs, chain) && chain[0] == v && chain[|chain| - 1] == x
  }

  lemma {:induction false} ChainIsUnder(e: Evidence, h: Height, chain: seq<Ref>, i: nat, j: nat)
    requires Built(e.l, h) && AskedChain(e.scope, e.l.runs, chain) && i <= j < |chain|
    ensures e.Here(chain[j]) && Reaches(e.Needs(), chain[i], chain[j])
    decreases j - i
  {
    HereSays(e, h, chain[j]);
    if i < j {
      ChainIsUnder(e, h, chain, i, j - 1);
      NeedsExactly(e, h, chain[j - 1], chain[j]);
      NeedsNext(e, chain[j - 1]);
      ReachesStep(e.Needs(), chain[i], chain[j - 1], chain[j]);
    }
  }

  lemma OneMoreAsked(e: Evidence, h: Height, v: Ref, x: Ref, y: Ref)
    requires Built(e.l, h) && RestsOn(e.scope, e.l.runs, v, x) && e.Here(x) && e.Here(y) && y in Next(e.Needs(), x)
    ensures RestsOn(e.scope, e.l.runs, v, y)
  {
    var chain :| AskedChain(e.scope, e.l.runs, chain) && chain[0] == v && chain[|chain| - 1] == x;
    HereSays(e, h, y);
    NeedsNext(e, x);
    NeedsExactly(e, h, x, y);
    assert AskedChain(e.scope, e.l.runs, [y]);
    ChainsJoin(e.scope, e.l.runs, chain, [y]);
  }

  lemma ReachedIsAsked(e: Evidence, h: Height, v: Ref, x: Ref)
    requires Built(e.l, h) && e.Here(v) && e.Here(x) && Reaches(e.Needs(), v, x)
    ensures RestsOn(e.scope, e.l.runs, v, x)
  {
    var g := e.Needs();
    HereSays(e, h, v);
    assert AskedChain(e.scope, e.l.runs, [v]);
    assert RestsOn(e.scope, e.l.runs, v, v);
    var s := set y | y in Nodes(g) + {v} && (e.Here(y) ==> RestsOn(e.scope, e.l.runs, v, y));
    forall y | y in s ensures Next(g, y) <= s { NextRests(e, h, v, y, s); }
    assert ClosedUnder(g, s);
  }

  lemma NextRests(e: Evidence, h: Height, v: Ref, y: Ref, s: set<Ref>)
    requires Built(e.l, h) && e.Here(v) && y in s
    requires s == set z | z in Nodes(e.Needs()) + {v} && (e.Here(z) ==> RestsOn(e.scope, e.l.runs, v, z))
    ensures Next(e.Needs(), y) <= s
  {
    var g := e.Needs();
    NextInNodes(g, y);
    forall z | z in Next(g, y) ensures z in s {
      if e.Here(z) {
        OnlyHere(e, y);
        OneMoreAsked(e, h, v, y, z);
      }
    }
  }

  lemma OnlyHere(e: Evidence, y: Ref)
    ensures Next(e.Needs(), y) != {} ==> e.Here(y)
  {}

  /** What is under a value, in a proof, is what chains of asking lead to. */
  lemma UnderExactly(e: Evidence, h: Height, v: Ref, x: Ref)
    requires Built(e.l, h) && e.Here(v)
    ensures e.Under({v}, x) && e.Here(x) <==> RestsOn(e.scope, e.l.runs, v, x)
  {
    if e.Under({v}, x) && e.Here(x) { ReachedIsAsked(e, h, v, x); }
    if RestsOn(e.scope, e.l.runs, v, x) {
      var chain :| AskedChain(e.scope, e.l.runs, chain) && chain[0] == v && chain[|chain| - 1] == x;
      ChainIsUnder(e, h, chain, 0, |chain| - 1);
      assert v in {v};
    }
  }

  ghost predicate NoneTwiceIn(chain: seq<Ref>) { forall i, j | 0 <= i < j < |chain| :: chain[i] != chain[j] }

  /** A value is proven model-free exactly when, along every chain of asking from it, each value stands and none comes twice. */
  lemma ProvenExactly(e: Evidence, h: Height, v: Ref)
    requires Built(e.l, h) && e.Here(v)
    ensures e.Proven({v}) <==> forall chain | AskedChain(e.scope, e.l.runs, chain) && chain[0] == v ::
      NoneTwiceIn(chain) && forall x | x in chain :: Stands(e.scope, e.l.runs, x)
  {
    if e.Proven({v}) {
      forall chain | AskedChain(e.scope, e.l.runs, chain) && chain[0] == v
        ensures NoneTwiceIn(chain) && forall x | x in chain :: Stands(e.scope, e.l.runs, x)
      {
        ProvenChain(e, h, v, chain);
      }
    } else {
      var x :| e.Under({v}, x) && !(e.Sound(x) && !e.OnLoop(x));
      var chain := FailingChain(e, h, v, x);
    }
  }

  lemma ProvenChain(e: Evidence, h: Height, v: Ref, chain: seq<Ref>)
    requires Built(e.l, h) && e.Here(v) && e.Proven({v}) && AskedChain(e.scope, e.l.runs, chain) && chain[0] == v
    ensures NoneTwiceIn(chain) && forall x | x in chain :: Stands(e.scope, e.l.runs, x)
  {
    forall x | x in chain ensures Stands(e.scope, e.l.runs, x) {
      var i :| 0 <= i < |chain| && chain[i] == x;
      ChainIsUnder(e, h, chain, 0, i);
      assert v in {v};
      assert e.Under({v}, x);
      SoundExactly(e, h, x);
    }
    forall i, j | 0 <= i < j < |chain| ensures chain[i] != chain[j] {
      ChainIsUnder(e, h, chain, 0, i);
      assert v in {v};
      assert e.Under({v}, chain[i]);
      if chain[i] == chain[j] { TwiceLoops(e, h, chain, i, j); }
    }
  }

  lemma TwiceLoops(e: Evidence, h: Height, chain: seq<Ref>, i: nat, j: nat)
    requires Built(e.l, h) && AskedChain(e.scope, e.l.runs, chain) && i < j < |chain| && chain[i] == chain[j]
    ensures e.OnLoop(chain[i])
  {
    ChainIsUnder(e, h, chain, i + 1, j);
    ChainIsUnder(e, h, chain, 0, i);
    NeedsExactly(e, h, chain[i], chain[i + 1]);
    NeedsNext(e, chain[i]);
    assert chain[i + 1] in Next(e.Needs(), chain[i]);
  }

  lemma FailingChain(e: Evidence, h: Height, v: Ref, x: Ref) returns (chain: seq<Ref>)
    requires Built(e.l, h) && e.Here(v) && e.Under({v}, x) && !(e.Sound(x) && !e.OnLoop(x))
    ensures AskedChain(e.scope, e.l.runs, chain) && chain[0] == v
    ensures !(NoneTwiceIn(chain) && forall y | y in chain :: Stands(e.scope, e.l.runs, y))
  {
    if e.OnLoop(x) { OnlyHere(e, x); }
    UnderExactly(e, h, v, x);
    chain :| AskedChain(e.scope, e.l.runs, chain) && chain[0] == v && chain[|chain| - 1] == x;
    if !e.Sound(x) {
      SoundExactly(e, h, x);
      assert x in chain;
    } else {
      var z :| z in Next(e.Needs(), x) && Reaches(e.Needs(), z, x);
      chain := LoopedChain(e, h, chain, z);
    }
  }

  lemma LoopedChain(e: Evidence, h: Height, chain: seq<Ref>, z: Ref) returns (more: seq<Ref>)
    requires Built(e.l, h) && AskedChain(e.scope, e.l.runs, chain)
    requires var x := chain[|chain| - 1]; e.Here(x) && z in Next(e.Needs(), x) && Reaches(e.Needs(), z, x)
    ensures AskedChain(e.scope, e.l.runs, more) && more[0] == chain[0] && !NoneTwiceIn(more)
  {
    var x, n := chain[|chain| - 1], |chain|;
    if !e.Here(z) { assert ClosedUnder(e.Needs(), {z}) by { OnlyHere(e, z); } }
    ReachedIsAsked(e, h, z, x);
    var back :| AskedChain(e.scope, e.l.runs, back) && back[0] == z && back[|back| - 1] == x;
    more := chain + back;
    NeedsNext(e, x);
    NeedsExactly(e, h, x, z);
    ChainsJoin(e.scope, e.l.runs, chain, back);
    assert more[n - 1] == more[|more| - 1];
  }

  lemma ChainsJoin(scope: Scope, runs: Episode, a: seq<Ref>, b: seq<Ref>)
    requires AskedChain(scope, runs, a) && AskedChain(scope, runs, b) && AsksFor(scope, runs, a[|a| - 1], b[0])
    ensures AskedChain(scope, runs, a + b)
  {
    var r := a + b;
    forall i | 0 <= i < |r| - 1 ensures AsksFor(scope, runs, r[i], r[i + 1]) {
      if i < |a| - 1 {
        assert r[i] == a[i] && r[i + 1] == a[i + 1];
      } else if i >= |a| {
        assert r[i] == b[i - |a|] && r[i + 1] == b[i - |a| + 1];
      }
    }
  }

  // ---- what a proven value cannot rest on ----

  /** A value that a step consulting the model made, or one of which the model's reading was put down, and that a proven value
      rests on, is re-derived: some substitute of that step's capacity, run on what the step consumed, made a value that the
      check found to agree with the one recorded; and none made one it found not to. */
  lemma ModelValuesAreRederived(e: Evidence, h: Height, v: Ref, x: Ref, p: Iri)
    requires Built(e.l, h) && e.Here(v) && e.Proven({v}) && e.Under({v}, x) && e.Here(x)
    requires e.l.runs[x.graph].Producer(x.instance) == Some(p)
    requires var run := e.l.runs[x.graph];
      || (exists d :: run.Declaration(p) == Some(d) && d.consultsLlm == Some(true))
      || exists s :: (p, s) in run.produces && run.RecordsReading(s, run.nodes[x.instance].datastate)
    ensures SomeRan(e.scope, e.l.runs[x.graph], p, x.instance, true) && !SomeRan(e.scope, e.l.runs[x.graph], p, x.instance, false)
  {
    assert MadeByModel(e.l.runs, x);
    assert e.Sound(x);
    SoundExactly(e, h, x);
  }

  /** No start that a capacity of the model interpreted is under a proven value. */
  lemma NoInterpretedStart(e: Evidence, h: Height, v: Ref, x: Ref, used: seq<Iri>, snapshot: Option<seq<Entry>>)
    requires Built(e.l, h) && e.Here(v) && e.Proven({v}) && e.Under({v}, x) && e.Here(x)
    requires var run := e.l.runs[x.graph];
      run.Producer(x.instance) == None && run.OriginOf(run.nodes[x.instance].datastate) == Some(Interpreted(Some(used), snapshot))
    ensures used == []
  {
    assert e.Sound(x);
    SoundExactly(e, h, x);
  }

  // ---- what a report names ----

  /** A role read on the way to `x`: by an agreeing substitute as declared now, by the step as recorded, or in interpreting. */
  ghost predicate RoleRead(scope: Scope, runs: Episode, x: Ref, role: Iri)
    requires IsEpisodeValue(runs, x)
  {
    var run, id := runs[x.graph], x.instance;
    match run.Producer(id)
    case Some(p) =>
      if MadeByModel(runs, x) then
        exists s :: s in scope.SubstitutesFor(run.nodes[p].capacity) && Considered(scope, run, p, s) && Ran(scope, run, p, id, s, true) && role in s.readsRoles
      else exists d :: run.Declaration(p) == Some(d) && ReadsRole(d, role)
    case None =>
      exists used, snapshot, d :: run.OriginOf(run.nodes[id].datastate) == Some(Interpreted(used, Some(snapshot))) && d in snapshot && ReadsRole(d, role)
  }

  ghost predicate ReadsRole(d: Entry, role: Iri) {
    exists roles :: d.readsRoles == Some(roles) && role in roles && d.readsMm.Some?
  }

  lemma ReadRolesExactly(d: Entry, role: Iri)
    ensures role in ReadRoles(d) <==> ReadsRole(d, role)
  {}

  lemma RolesExactly(e: Evidence, h: Height, x: Ref, role: Iri)
    requires Built(e.l, h) && e.Here(x)
    ensures e.ReadsRole(x, role) <==> RoleRead(e.scope, e.l.runs, x, role)
  {
    ModelMadeExactly(e, h, x);
    if e.ModelMade(x) {
      AgreedRolesExactly(e, x, e.ProducerOf(x).value, role);
    } else {
      forall d ensures role in ReadRoles(d) <==> ReadsRole(d, role) { ReadRolesExactly(d, role); }
    }
  }

  lemma {:induction false} RolesOfAgreed(cs: seq<Case>, role: Iri)
    ensures role in RolesIn(AgreedRoles(cs)) <==> exists c :: c in cs && c.Agrees() && role in c.substitute.readsRoles
  {
    if cs != [] {
      var n := |cs| - 1;
      var rest, last := cs[..n], cs[n];
      RolesOfAgreed(rest, role);
      assert cs == rest + [last];
      if last.Agrees() {
        RolesInMore(AgreedRoles(rest), (last.substitute.iri, last.substitute.readsRoles));
        assert last in cs;
      } else {
        assert AgreedRoles(cs) == AgreedRoles(rest);
      }
    }
  }

  lemma AgreedRolesExactly(e: Evidence, x: Ref, p: Iri, role: Iri)
    requires e.Here(x) && e.ModelMade(x) && e.ProducerOf(x) == Some(p)
    ensures role in RolesIn(AgreedRoles(e.CasesOf(x))) <==> exists s ::
      s in e.SubstitutesOf(x) && Considered(e.scope, e.RunOf(x), p, s) && Ran(e.scope, e.RunOf(x), p, x.instance, s, true) && role in s.readsRoles
  {
    RolesOfAgreed(e.CasesOf(x), role);
    if exists c :: c in e.CasesOf(x) && c.Agrees() && role in c.substitute.readsRoles { var s := AgreeingRan(e, x, p, role); }
    if s :| s in e.SubstitutesOf(x) && Considered(e.scope, e.RunOf(x), p, s) && Ran(e.scope, e.RunOf(x), p, x.instance, s, true) && role in s.readsRoles {
      RanIsAgreeing(e, x, p, s);
    }
  }

  lemma AgreeingRan(e: Evidence, x: Ref, p: Iri, role: Iri) returns (s: Decl)
    requires e.Here(x) && e.ModelMade(x) && e.ProducerOf(x) == Some(p)
    requires exists c :: c in e.CasesOf(x) && c.Agrees() && role in c.substitute.readsRoles
    ensures s in e.SubstitutesOf(x) && Considered(e.scope, e.RunOf(x), p, s) && Ran(e.scope, e.RunOf(x), p, x.instance, s, true) && role in s.readsRoles
  {
    var c :| c in e.CasesOf(x) && c.Agrees() && role in c.substitute.readsRoles;
    s := CaseIsOf(e, x, c);
    AgreeingCase(e, x, p, s);
  }

  lemma CaseIsOf(e: Evidence, x: Ref, c: Case) returns (s: Decl)
    requires e.Here(x) && e.ModelMade(x) && c in e.CasesOf(x)
    ensures s in e.SubstitutesOf(x) && e.CaseOf(x, s) == c && c.substitute == s
  {
    var i :| 0 <= i < |e.CasesOf(x)| && e.CasesOf(x)[i] == c;
    s := e.SubstitutesOf(x)[i];
  }

  lemma AgreeingCase(e: Evidence, x: Ref, p: Iri, s: Decl)
    requires e.Here(x) && e.ModelMade(x) && e.ProducerOf(x) == Some(p) && s in e.SubstitutesOf(x) && e.CaseOf(x, s).Agrees()
    ensures Considered(e.scope, e.RunOf(x), p, s) && Ran(e.scope, e.RunOf(x), p, x.instance, s, true)
  {
    CaseExactly(e, x, p, s);
  }

  lemma RanIsAgreeing(e: Evidence, x: Ref, p: Iri, s: Decl)
    requires e.Here(x) && e.ModelMade(x) && e.ProducerOf(x) == Some(p) && s in e.SubstitutesOf(x)
    requires Considered(e.scope, e.RunOf(x), p, s) && Ran(e.scope, e.RunOf(x), p, x.instance, s, true)
    ensures e.CaseOf(x, s) in e.CasesOf(x) && e.CaseOf(x, s).Agrees() && e.CaseOf(x, s).substitute == s
  {
    CaseExactly(e, x, p, s);
    JudgedIsACase(e, x, s);
  }

  /** A start that a proof takes as a premise: one that was given or interpreted. */
  ghost predicate Premise(runs: Episode, x: Ref)
    requires IsEpisodeValue(runs, x)
  {
    var run := runs[x.graph];
    var origin := run.OriginOf(run.nodes[x.instance].datastate);
    run.Producer(x.instance) == None && (origin == Some(Given) || exists used, snapshot :: origin == Some(Interpreted(used, snapshot)))
  }

  /** The report of a proven value: its premises are the starts it rests on that were not carried over, its roles those read on
      the way to anything it rests on, and re-derived is all the model made of it, each under its step's capacity. */
  lemma ReportExactly(e: Evidence, h: Height, v: Ref, p: Partial)
    requires Built(e.l, h) && e.Here(v) && e.Proven({v}) && e.Answers({v}, p)
    ensures p.notProven == {}
    ensures forall x :: x in p.premises <==> RestsOn(e.scope, e.l.runs, v, x) && IsEpisodeValue(e.l.runs, x) && Premise(e.l.runs, x)
    ensures forall role :: role in p.roles <==> exists x ::
      RestsOn(e.scope, e.l.runs, v, x) && IsEpisodeValue(e.l.runs, x) && RoleRead(e.scope, e.l.runs, x, role)
    ensures forall x :: x in p.rederived <==> RestsOn(e.scope, e.l.runs, v, x) && IsEpisodeValue(e.l.runs, x) && MadeByModel(e.l.runs, x)
  {
    forall x
      ensures x in p.premises <==> RestsOn(e.scope, e.l.runs, v, x) && IsEpisodeValue(e.l.runs, x) && Premise(e.l.runs, x)
      ensures x in p.rederived <==> RestsOn(e.scope, e.l.runs, v, x) && IsEpisodeValue(e.l.runs, x) && MadeByModel(e.l.runs, x)
    {
      UnderExactly(e, h, v, x);
      HereSays(e, h, x);
      if e.Here(x) && e.Under({v}, x) {
        ModelMadeExactly(e, h, x);
        PremiseExactly(e, h, v, x);
      }
    }
    forall role ensures role in p.roles <==> exists x ::
      RestsOn(e.scope, e.l.runs, v, x) && IsEpisodeValue(e.l.runs, x) && RoleRead(e.scope, e.l.runs, x, role)
    {
      if role in p.roles {
        var x :| e.Under({v}, x) && e.Here(x) && e.ReadsRole(x, role);
        UnderExactly(e, h, v, x);
        HereSays(e, h, x);
        RolesExactly(e, h, x, role);
      }
      if x :| RestsOn(e.scope, e.l.runs, v, x) && IsEpisodeValue(e.l.runs, x) && RoleRead(e.scope, e.l.runs, x, role) {
        UnderExactly(e, h, v, x);
        RolesExactly(e, h, x, role);
      }
    }
  }

  lemma PremiseExactly(e: Evidence, h: Height, v: Ref, x: Ref)
    requires Built(e.l, h) && e.Here(x) && e.Proven({v}) && e.Under({v}, x)
    ensures IsEpisodeValue(e.l.runs, x) && (e.IsPremise(x) <==> Premise(e.l.runs, x))
  {
    HereSays(e, h, x);
    assert e.Sound(x);
    SoundExactly(e, h, x);
    if e.ProducerOf(x).None? {
      StartOf(e.scope, e.l.runs, x);
      StartPremise(e, x);
    }
  }

  lemma StartPremise(e: Evidence, x: Ref)
    requires e.Here(x) && e.ProducerOf(x).None? && StartStands(e.RunOf(x).OriginOf(e.DatastateOf(x)))
    ensures e.IsPremise(x) <==> Premise(e.l.runs, x)
  {}

  lemma StartOf(scope: Scope, runs: Episode, x: Ref)
    requires IsEpisodeValue(runs, x) && Stands(scope, runs, x) && runs[x.graph].Producer(x.instance).None?
    ensures StartStands(runs[x.graph].OriginOf(runs[x.graph].nodes[x.instance].datastate))
  {}

  /** Of each model value re-derived the report gives its step's capacity and, for every substitute in turn, what came of it. */
  lemma RederivationExactly(e: Evidence, h: Height, x: Ref, p: Iri, i: nat)
    requires Built(e.l, h) && e.Here(x) && e.ModelMade(x) && e.ProducerOf(x) == Some(p)
    requires i < |e.scope.SubstitutesFor(e.RunOf(x).nodes[p].capacity)|
    ensures var r := e.RederivationOf(x); var subs := e.scope.SubstitutesFor(e.RunOf(x).nodes[p].capacity); var run := e.RunOf(x);
      && r.reader == run.nodes[p].capacity && |r.runs| == |subs| && r.runs[i].substitute == subs[i].iri
      && forall verdict :: r.runs[i].agrees == Some(verdict) <==>
           Considered(e.scope, run, p, subs[i]) && Ran(e.scope, run, p, x.instance, subs[i], verdict)
  {
    var subs, cases := e.SubstitutesOf(x), e.CasesOf(x);
    RunsAre(cases, i);
    assert subs[i] in subs;
    CaseExactly(e, x, p, subs[i]);
    RunNamesIts(e, x, subs[i]);
    forall verdict: bool ensures cases[i].Run(true).agrees == Some(verdict) <==>
      Considered(e.scope, e.RunOf(x), p, subs[i]) && Ran(e.scope, e.RunOf(x), p, x.instance, subs[i], verdict)
    {
      assert verdict == true || verdict == false;
    }
  }

  lemma RunNamesIts(e: Evidence, x: Ref, s: Decl)
    requires e.Here(x) && e.ModelMade(x) && s in e.SubstitutesOf(x)
    ensures e.CaseOf(x, s).Run(true).substitute == s.iri
  {}

  lemma {:induction false} RunsAre(cs: seq<Case>, i: nat)
    requires i < |cs|
    ensures |RunsOf(cs, true)| == |cs| && RunsOf(cs, true)[i] == cs[i].Run(true)
  {
    var n := |cs| - 1;
    RunsLength(cs[..n]);
    if i < n { RunsAre(cs[..n], i); }
  }

  lemma {:induction false} RunsLength(cs: seq<Case>)
    ensures |RunsOf(cs, true)| == |cs|
  {
    if cs != [] { RunsLength(cs[..|cs| - 1]); }
  }

  // ---- what stops a proof ----

  function If(holds: bool, k: Reason): set<Reason> { if holds then {k} else {} }

  ghost function GapReasons(e: Evidence, x: Ref): set<Reason>
    requires e.Here(x)
  {
    set g | g in e.l.own[x].gaps :: LineageGap(g)
  }

  lemma GapReasonsExactly(e: Evidence, h: Height, x: Ref, k: Reason)
    requires Built(e.l, h) && e.Here(x)
    ensures k in GapReasons(e, x) <==> k.LineageGap? && GapIs(e.l.runs, x, k.gap)
  {
    BuiltSays(e.l, h, x);
    GapsExactly(e.l.runs, x);
  }

  ghost predicate SomeRunnable(scope: Scope, run: Run, p: Iri)
    requires run.IsCapacity(p)
  {
    exists s :: s in scope.SubstitutesFor(run.nodes[p].capacity) && Runnable(scope, run, p, s)
  }

  lemma JudgedExactly(e: Evidence, x: Ref, p: Iri)
    requires e.Here(x) && e.ModelMade(x) && e.ProducerOf(x) == Some(p)
    ensures SomeJudged(e.CasesOf(x)) <==> SomeRunnable(e.scope, e.RunOf(x), p)
  {
    if SomeJudged(e.CasesOf(x)) { var s := JudgedIsRunnable(e, x, p); }
    if SomeRunnable(e.scope, e.RunOf(x), p) { RunnableIsJudged(e, x, p); }
  }

  lemma JudgedIsRunnable(e: Evidence, x: Ref, p: Iri) returns (s: Decl)
    requires e.Here(x) && e.ModelMade(x) && e.ProducerOf(x) == Some(p) && SomeJudged(e.CasesOf(x))
    ensures s in e.SubstitutesOf(x) && Runnable(e.scope, e.RunOf(x), p, s)
  {
    var subs, cases := e.SubstitutesOf(x), e.CasesOf(x);
    var c :| c in cases && c.Judged?;
    var i :| 0 <= i < |cases| && cases[i] == c;
    s := subs[i];
    CaseExactly(e, x, p, s);
  }

  lemma RunnableIsJudged(e: Evidence, x: Ref, p: Iri)
    requires e.Here(x) && e.ModelMade(x) && e.ProducerOf(x) == Some(p) && SomeRunnable(e.scope, e.RunOf(x), p)
    ensures SomeJudged(e.CasesOf(x))
  {
    var s :| s in e.SubstitutesOf(x) && Runnable(e.scope, e.RunOf(x), p, s);
    CaseExactly(e, x, p, s);
    JudgedIsACase(e, x, s);
  }

  /** Against a value the model made: that its capacity has no substitutes, that one lacks its inputs, or that none can be run. */
  lemma MadeStops(e: Evidence, x: Ref, p: Iri)
    requires e.Here(x) && e.ModelMade(x) && e.ProducerOf(x) == Some(p)
    ensures var subs := e.scope.SubstitutesFor(e.RunOf(x).nodes[p].capacity);
      e.LocalStops(x) == GapReasons(e, x) + If(subs == [], NotYetExcisable)
        + If(!NoneMissing(e.scope, e.RunOf(x), p), NotInTheGroundingGraph)
        + If(subs != [] && !SomeRunnable(e.scope, e.RunOf(x), p), NoSubstituteAgreed)
  {
    CasesExactly(e, x, p);
    JudgedExactly(e, x, p);
    MadeStopsAre(e, x);
  }

  lemma MadeStopsAre(e: Evidence, x: Ref)
    requires e.Here(x) && e.ModelMade(x)
    ensures var cs := e.CasesOf(x);
      e.LocalStops(x) == GapReasons(e, x) + If(cs == [], NotYetExcisable) + If(SomeMissing(cs), NotInTheGroundingGraph)
        + If(cs != [] && !SomeJudged(cs), NoSubstituteAgreed)
  {
    var cs := e.CasesOf(x);
    assert cs == [] ==> !SomeMissing(cs);
  }

  /** And, once what they are handed is proven: that one of them disagrees, or, none doing so, that none agrees. */
  lemma MadeVerdicts(e: Evidence, x: Ref, p: Iri)
    requires e.Here(x) && e.ModelMade(x) && e.ProducerOf(x) == Some(p)
    ensures var disagrees, agrees := SomeRan(e.scope, e.RunOf(x), p, x.instance, false), SomeRan(e.scope, e.RunOf(x), p, x.instance, true);
      e.RunStops(x) ==
        if !SomeRunnable(e.scope, e.RunOf(x), p) then {}
        else If(disagrees, SubstituteDisagrees) + If(!disagrees && !agrees, NoSubstituteAgreed)
  {
    CasesExactly(e, x, p);
    JudgedExactly(e, x, p);
    VerdictsAre(e, x);
  }

  lemma VerdictsAre(e: Evidence, x: Ref)
    requires e.Here(x) && e.ModelMade(x)
    ensures var cs := e.CasesOf(x);
      e.RunStops(x) ==
        if !SomeJudged(cs) then {} else If(SomeDisagrees(cs), SubstituteDisagrees) + If(!SomeDisagrees(cs) && !SomeAgrees(cs), NoSubstituteAgreed)
  {}

  function Declared(run: Run, p: Iri): set<Entry> { match run.Declaration(p) case Some(d) => {d} case None => {} }

  ghost predicate SomeEntry(es: set<Entry>, recorded: bool) {
    exists d :: d in es &&
      if recorded then d.readsRoles.Some? && d.readsMm == Some(true) else d.readsRoles.None? || d.readsMm.None?
  }

  /** Against the output of a step: that it is a loose answer of the model, that the step's reads are not recorded or include the
      mental model, or that it consumed an origin record. */
  lemma StepStopsAre(e: Evidence, h: Height, x: Ref, p: Iri)
    requires Built(e.l, h) && e.Here(x) && !e.ModelMade(x) && e.ProducerOf(x) == Some(p)
    ensures var run := e.RunOf(x); var es := Declared(run, p);
      e.LocalStops(x) == GapReasons(e, x) + If(LooseAnswer(e.l.runs, x), ModelAnswerNotExcisable)
        + If(SomeEntry(es, false), ReadsNotRecorded) + If(SomeEntry(es, true), ReadsTheMentalModel)
        + If(exists c :: (c, p) in run.consumes && run.IsRecord(c), ConsumedAnOriginRecord)
  {
    AnswersExactly(e, h, x);
    StepReads(e, x, p);
  }

  lemma StepReads(e: Evidence, x: Ref, p: Iri)
    requires e.Here(x) && e.ProducerOf(x) == Some(p)
    ensures var run := e.RunOf(x); var es := Declared(run, p);
      e.StepStops(x) == If(SomeEntry(es, false), ReadsNotRecorded) + If(SomeEntry(es, true), ReadsTheMentalModel)
        + If(exists c :: (c, p) in run.consumes && run.IsRecord(c), ConsumedAnOriginRecord)
  {
    var run := e.RunOf(x);
    var es := Declared(run, p);
    assert (exists c :: c in run.Consumed(p) && run.IsRecord(c)) <==> exists c :: (c, p) in run.consumes && run.IsRecord(c) by {
      if c :| (c, p) in run.consumes && run.IsRecord(c) { assert c in run.Consumed(p); }
    }
  }

  /** Against a start: that it is a loose answer of the model, that a capacity of the model interpreted it, that it is not recorded
      what did, or that the reads of what did are not recorded or include the mental model. */
  lemma StartStopsAre(e: Evidence, h: Height, x: Ref)
    requires Built(e.l, h) && e.Here(x) && e.ProducerOf(x).None?
    ensures var run := e.RunOf(x); var ds := e.DatastateOf(x); var es := Interpreters(run.OriginOf(ds));
      e.LocalStops(x) == GapReasons(e, x) + If(LooseAnswer(e.l.runs, x), ModelAnswerNotExcisable)
        + If(InterpretedByIt(run, x.instance, ds), InterpretedWithTheModel)
        + If(exists used :: run.OriginOf(ds) == Some(Interpreted(used, None)), InterpretationNotRecorded)
        + If(SomeEntry(es, false), ReadsNotRecorded) + If(SomeEntry(es, true), ReadsTheMentalModel)
  {
    AnswersExactly(e, h, x);
    StartReads(e, x);
  }

  function Interpreters(origin: Option<Origin>): set<Entry> {
    match origin
    case Some(Interpreted(_, Some(entries))) => set d | d in entries
    case _ => {}
  }

  lemma StartReads(e: Evidence, x: Ref)
    requires e.Here(x) && e.ProducerOf(x).None?
    ensures var run := e.RunOf(x); var ds := e.DatastateOf(x); var es := Interpreters(run.OriginOf(ds));
      e.StartStops(x) == If(InterpretedByIt(run, x.instance, ds), InterpretedWithTheModel)
        + If(exists used :: run.OriginOf(ds) == Some(Interpreted(used, None)), InterpretationNotRecorded)
        + If(SomeEntry(es, false), ReadsNotRecorded) + If(SomeEntry(es, true), ReadsTheMentalModel)
  {
    match e.RunOf(x).OriginOf(e.DatastateOf(x)) {
      case Some(Interpreted(_, Some(entries))) => EntriesRead(entries);
      case _ =>
    }
  }

  lemma EntriesRead(entries: seq<Entry>)
    ensures var es := set d | d in entries;
      (set d, k | d in entries && k in ReadStops(d) :: k) == If(SomeEntry(es, false), ReadsNotRecorded) + If(SomeEntry(es, true), ReadsTheMentalModel)
  {
    var es, stops := set d | d in entries, set d, k | d in entries && k in ReadStops(d) :: k;
    if SomeEntry(es, false) {
      var d :| d in es && (d.readsRoles.None? || d.readsMm.None?);
      assert ReadsNotRecorded in ReadStops(d);
    }
    if SomeEntry(es, true) {
      var d :| d in es && d.readsRoles.Some? && d.readsMm == Some(true);
      assert ReadsTheMentalModel in ReadStops(d);
    }
    forall k | k in stops ensures k in If(SomeEntry(es, false), ReadsNotRecorded) + If(SomeEntry(es, true), ReadsTheMentalModel) {
      var d :| d in entries && k in ReadStops(d);
      assert d in es;
    }
  }
}
