/** Substitutes: capacities that re-derive a model reader's conclusion without the model. */
module Substitutes {
  import opened Identifiers
  import opened Episodes

  /** A capacity as declared in a scope, as far as a re-run reads it. */
  datatype Decl = Decl(
    iri: Iri, inputs: seq<Iri>, outputs: seq<Iri>, substituteFor: Option<Iri>, consultsLlm: bool,
    answerInputs: seq<Iri>, writes: bool, readsMm: bool, readsRoles: set<Iri>)

  function Without(s: seq<Iri>, dropped: seq<Iri>): (r: seq<Iri>)
    ensures forall x :: x in r <==> x in s && x !in dropped
  {
    if s == [] then [] else (if s[0] in dropped then [] else [s[0]]) + Without(s[1..], dropped)
  }

  /** What is left is in the order it was in. */
  lemma {:induction false} WithoutAdds(a: seq<Iri>, b: seq<Iri>, dropped: seq<Iri>)
    ensures Without(a + b, dropped) == Without(a, dropped) + Without(b, dropped)
    ensures |a| == 1 ==> Without(a, dropped) == if a[0] in dropped then [] else a
  {
    if a == [] {
      assert a + b == b;
    } else {
      assert (a + b)[1..] == a[1..] + b;
      WithoutAdds(a[1..], b, dropped);
    }
  }

  datatype Problem = NotAReader | ConsultsTheModel | DeclaresAnswers | NoSourceLeft | OtherInputs | OtherOutputs

  function SourceInputs(reader: Decl): seq<Iri> { Without(reader.inputs, reader.answerInputs) }

  /** The list of what is found wrong, in the order it is looked for; other inputs matter only where there are any to take. */
  function Listed(a: bool, b: bool, c: bool, d: bool, e: bool, f: bool): seq<Problem> {
    (if a then [NotAReader] else []) + (if b then [ConsultsTheModel] else []) + (if c then [DeclaresAnswers] else [])
    + (if d then [NoSourceLeft] else if e then [OtherInputs] else []) + (if f then [OtherOutputs] else [])
  }

  /** `substitute_problems`. */
  function SubstituteProblems(s: Decl, reader: Decl): seq<Problem> {
    var source := SourceInputs(reader);
    Listed(!reader.consultsLlm && reader.answerInputs == [], s.consultsLlm, s.answerInputs != [], source == [], s.inputs != source,
      s.outputs == [] || exists d :: d in s.outputs && d !in reader.outputs)
  }

  /** Each problem is named exactly when there is one of its kind. */
  lemma ProblemsExactly(s: Decl, reader: Decl)
    ensures var ps := SubstituteProblems(s, reader); var source := Without(reader.inputs, reader.answerInputs);
      && (NotAReader in ps <==> !reader.consultsLlm && reader.answerInputs == [])
      && (ConsultsTheModel in ps <==> s.consultsLlm) && (DeclaresAnswers in ps <==> s.answerInputs != [])
      && (NoSourceLeft in ps <==> source == []) && (OtherInputs in ps <==> source != [] && s.inputs != source)
      && (OtherOutputs in ps <==> s.outputs == [] || exists d :: d in s.outputs && d !in reader.outputs)
  {
    var source := Without(reader.inputs, reader.answerInputs);
    OneOfEach(!reader.consultsLlm && reader.answerInputs == [], s.consultsLlm, s.answerInputs != [], source == [],
      s.inputs != source, s.outputs == [] || exists d :: d in s.outputs && d !in reader.outputs);
  }

  lemma OneOfEach(a: bool, b: bool, c: bool, d: bool, e: bool, f: bool)
    ensures var ps := Listed(a, b, c, d, e, f);
      && (NotAReader in ps <==> a) && (ConsultsTheModel in ps <==> b) && (DeclaresAnswers in ps <==> c)
      && (NoSourceLeft in ps <==> d) && (OtherInputs in ps <==> !d && e) && (OtherOutputs in ps <==> f)
  {}

  /** All substitutes that pair with one reader take the same inputs, of which there are some and none carries
      the model's answer; and none of them consults the model. */
  lemma PairedShareInputs(s: Decl, t: Decl, reader: Decl)
    requires SubstituteProblems(s, reader) == [] && SubstituteProblems(t, reader) == []
    ensures s.inputs == t.inputs != [] && !s.consultsLlm
    ensures forall d :: d in s.inputs <==> d in reader.inputs && d !in reader.answerInputs
    ensures forall d | d in s.outputs :: d in reader.outputs
  {
    var source := SourceInputs(reader);
    assert source == [] ==> NoSourceLeft in SubstituteProblems(s, reader);
    assert s.inputs != source ==> OtherInputs in SubstituteProblems(s, reader) || source == [];
    assert t.inputs != source ==> OtherInputs in SubstituteProblems(t, reader) || source == [];
    assert s.consultsLlm ==> ConsultsTheModel in SubstituteProblems(s, reader);
    assert (exists d :: d in s.outputs && d !in reader.outputs) ==> OtherOutputs in SubstituteProblems(s, reader);
  }

  /** A substitute pairs with a reader exactly when the reader is one, and the substitute takes just its source inputs, of
      which there are some, makes some of what it makes and nothing else, and has nothing to do with the model. */
  lemma PairsExactly(s: Decl, reader: Decl)
    ensures SubstituteProblems(s, reader) == [] <==>
      && (reader.consultsLlm || reader.answerInputs != []) && !s.consultsLlm && s.answerInputs == []
      && s.inputs == Without(reader.inputs, reader.answerInputs) != []
      && s.outputs != [] && forall d | d in s.outputs :: d in reader.outputs
  {
    var p1: seq<Problem> := if !reader.consultsLlm && reader.answerInputs == [] then [NotAReader] else [];
    var p2: seq<Problem> := if s.consultsLlm then [ConsultsTheModel] else [];
    var p3: seq<Problem> := if s.answerInputs != [] then [DeclaresAnswers] else [];
    assert |SubstituteProblems(s, reader)| >= |p1| + |p2| + |p3|;
  }

  /** Pairing is one step deep: what stands in for a reader is itself no reader, so nothing stands in for it. */
  lemma PairingNeverChains(s: Decl, t: Decl, reader: Decl)
    requires SubstituteProblems(s, reader) == []
    ensures SubstituteProblems(t, s) != [] && SubstituteProblems(reader, s) != [] && SubstituteProblems(s, s) != []
  {
    PairsExactly(s, reader);
    PairsExactly(t, s);
    PairsExactly(reader, s);
    PairsExactly(s, s);
  }

  /** A reader declared anew keeps a substitute exactly if it still is one, takes the same inputs beside the model's
      answers, in the same order, and still makes all that the substitute makes. */
  lemma RedeclaredReaderKeeps(s: Decl, before: Decl, after: Decl)
    requires SubstituteProblems(s, before) == []
    ensures SubstituteProblems(s, after) == [] <==>
      && (after.consultsLlm || after.answerInputs != []) && SourceInputs(after) == SourceInputs(before)
      && forall d | d in s.outputs :: d in after.outputs
  {
    PairsExactly(s, before);
    PairsExactly(s, after);
  }

  /** What a dispatcher reaches: the declarations of Global and of the session owner's Local, under all the names
      there are; what running a capacity gives, if it succeeds; and the check that two values agree. */
  datatype Scope = Scope(
    global: map<Iri, Decl>, local: map<Iri, Decl>, names: seq<Iri>,
    dispatch: (Iri, map<Iri, Datum>) -> Option<map<Iri, Datum>>, judge: (Datum, Datum) -> Option<bool>)
  {
    /** Local shadows Global. */
    function Merged(): (m: map<Iri, Decl>)
      ensures forall c :: c in m <==> c in global || c in local
      ensures forall c | c in m :: m[c] == if c in local then local[c] else global[c]
    {
      global + local
    }

    /** Registration admits a substitute only where its reader is, and nothing unregisters a capacity. */
    ghost predicate Valid() {
      && (forall c :: c in names <==> c in Merged()) && NoneTwice(names)
      && (forall c | c in Merged() :: Merged()[c].iri == c)
      && (forall c | c in Merged() :: Merged()[c].substituteFor.Some? ==> Merged()[c].substituteFor.value in Merged())
    }

    /** The reader still resolves, and the substitute still pairs with it. */
    predicate Pairs(s: Decl, reader: Iri) { reader in Merged() && SubstituteProblems(s, Merged()[reader]) == [] }

    /** By what the scope declares now: the reader is declared, the Local one first, and the substitute takes what it takes
        beside the model's answers, makes nothing that it does not make, and has nothing to do with the model. */
    ghost predicate StandsInFor(s: Decl, reader: Iri) {
      exists r ::
        && (if reader in local then local[reader] == r else reader in global && global[reader] == r)
        && (r.consultsLlm || r.answerInputs != []) && !s.consultsLlm && s.answerInputs == []
        && s.inputs == Without(r.inputs, r.answerInputs) != [] && s.outputs != [] && forall d | d in s.outputs :: d in r.outputs
    }

    lemma PairsAre(s: Decl, reader: Iri)
      ensures Pairs(s, reader) <==> StandsInFor(s, reader)
    {
      if reader in Merged() { PairsExactly(s, Merged()[reader]); }
    }

    function Named(sorted: seq<Iri>, reader: Iri): (r: seq<Decl>)
      ensures forall s | s in r :: exists c :: c in sorted && c in Merged() && s == Merged()[c] && s.substituteFor == Some(reader)
      ensures forall c | c in sorted && c in Merged() && Merged()[c].substituteFor == Some(reader) :: Merged()[c] in r
    {
      if sorted == [] then []
      else
        assert sorted == [sorted[0]] + sorted[1..];
        (if sorted[0] in Merged() && Merged()[sorted[0]].substituteFor == Some(reader) then [Merged()[sorted[0]]] else [])
          + Named(sorted[1..], reader)
    }

    /** `substitutes_for`: by IRI. */
    function SubstitutesFor(reader: Iri): seq<Decl> { Named(SortByIri(names), reader) }

    /** Exactly the capacities of the scope that name this reader, each once and in IRI order; and where there is one,
        the reader resolves. */
    lemma SubstitutesAreAll(reader: Iri)
      requires Valid()
      ensures forall s :: s in SubstitutesFor(reader) <==>
        exists c :: c in Merged() && s == Merged()[c] && s.substituteFor == Some(reader)
      ensures InOrder(SubstitutesFor(reader))
      ensures SubstitutesFor(reader) != [] ==> reader in Merged()
    {
      var r := SubstitutesFor(reader);
      assert r != [] ==> r[0] in r;
      SortedOnce(names);
      NamedInOrder(SortByIri(names), reader);
    }

    lemma {:induction false} NamedInOrder(sorted: seq<Iri>, reader: Iri)
      requires Valid() && Sorted(sorted) && NoneTwice(sorted)
      ensures InOrder(Named(sorted, reader)) && forall s | s in Named(sorted, reader) :: s.iri in sorted
    {
      if sorted != [] {
        var rest := sorted[1..];
        assert sorted == [sorted[0]] + rest;
        NamedInOrder(rest, reader);
        forall c | c in rest ensures Leq(sorted[0], c) && c != sorted[0] {
          var k :| 0 <= k < |rest| && rest[k] == c;
          assert sorted[k + 1] == c;
        }
        assert [] + Named(rest, reader) == Named(rest, reader);
        if sorted[0] in Merged() { FirstInOrder(Merged()[sorted[0]], Named(rest, reader)); }
      }
    }
  }

  lemma FirstInOrder(x: Decl, later: seq<Decl>)
    requires InOrder(later) && forall s | s in later :: Leq(x.iri, s.iri) && x.iri != s.iri
    ensures InOrder([x] + later)
  {
    var r := [x] + later;
    forall i, j | 0 <= i < j < |r| ensures Leq(r[i].iri, r[j].iri) && r[i].iri != r[j].iri {
      var b := later[j - 1];
      assert r[j] == b && b in later;
      if i > 0 {
        var a := later[i - 1];
        assert r[i] == a;
      }
    }
  }

  predicate NoneTwice(s: seq<Iri>) { forall i, j | 0 <= i < j < |s| :: s[i] != s[j] }

  /** By IRI, no IRI twice. */
  predicate InOrder(r: seq<Decl>) {
    forall i, j | 0 <= i < j < |r| :: Leq(r[i].iri, r[j].iri) && r[i].iri != r[j].iri
  }

  lemma SortedOnce(names: seq<Iri>)
    requires NoneTwice(names)
    ensures NoneTwice(SortByIri(names))
  {
    var r := SortByIri(names);
    forall i, j | 0 <= i < j < |r| ensures r[i] != r[j] {
      OnceEach(names, r[i]);
      TwiceCounts(r, i, j);
    }
  }

  lemma {:induction false} OnceEach(s: seq<Iri>, x: Iri)
    requires NoneTwice(s)
    ensures multiset(s)[x] <= 1
  {
    if s != [] {
      assert s == [s[0]] + s[1..];
      OnceEach(s[1..], x);
      forall y | y in s[1..] ensures y != s[0] {
        var k :| 0 <= k < |s[1..]| && s[1..][k] == y;
        assert s[k + 1] == y;
      }
    }
  }

  lemma TwiceCounts(s: seq<Iri>, i: nat, j: nat)
    requires i < j < |s|
    ensures s[i] == s[j] ==> multiset(s)[s[i]] >= 2
  {
    assert s == s[..i + 1] + s[i + 1..];
    assert s[..i + 1][i] == s[i] && s[i + 1..][j - i - 1] == s[j];
    assert s[i] in s[..i + 1] && s[j] in s[i + 1..];
  }

  /** Why a substitute was not run, or why its run came to nothing. */
  datatype Failure =
    | ReadsTheMentalModelItself | NoLongerPairs | TakesAWithheldAnswer | InputsNotInTheGraph | InputsNotProven
    | DeclaresWrites | DoesNotProduceTheValue | DidNotRun | CheckDidNotRun

  datatype SubstituteRun = SubstituteRun(substitute: Iri, agrees: Option<bool>, value: Option<Datum>, failure: Option<Failure>)

  /** `_run_substitute`. */
  function RunSubstitute(scope: Scope, s: Decl, inputs: map<Iri, Datum>, modelValue: Datum, ds: Iri): (r: SubstituteRun)
    ensures r.substitute == s.iri
  {
    if s.writes then SubstituteRun(s.iri, None, None, Some(DeclaresWrites))
    else if ds !in s.outputs then SubstituteRun(s.iri, None, None, Some(DoesNotProduceTheValue))
    else
      var result := scope.dispatch(s.iri, inputs);
      if result.None? || ds !in result.value then SubstituteRun(s.iri, None, None, Some(DidNotRun))
      else
        var value := result.value[ds];
        match scope.judge(modelValue, value)
        case None => SubstituteRun(s.iri, None, Some(value), Some(CheckDidNotRun))
        case Some(agrees) => SubstituteRun(s.iri, Some(agrees), Some(value), None)
  }

  /** A verdict comes only of a run: of a substitute without writes that makes the value, when it ran and made it, and then
      it is the judge's on the recorded value and the one made. */
  lemma VerdictIsTheJudges(scope: Scope, s: Decl, inputs: map<Iri, Datum>, modelValue: Datum, ds: Iri)
    ensures var r := RunSubstitute(scope, s, inputs, modelValue, ds); var made := scope.dispatch(s.iri, inputs);
      && (r.agrees.Some? <==>
           && !s.writes && ds in s.outputs && made.Some? && ds in made.value && scope.judge(modelValue, made.value[ds]).Some?)
      && (r.agrees.Some? ==> r.agrees == scope.judge(modelValue, made.value[ds]) && r.value == Some(made.value[ds]))
      && (r.agrees.Some? <==> r.failure.None?)
  {}

  /** Why a run came to nothing: it was not to write, it does not make the value, it failed or made something else, or there
      was no judging what it made; the first of these that applies is named. */
  lemma FailuresExactly(scope: Scope, s: Decl, inputs: map<Iri, Datum>, modelValue: Datum, ds: Iri)
    ensures var f := RunSubstitute(scope, s, inputs, modelValue, ds).failure; var made := scope.dispatch(s.iri, inputs);
      && (f == Some(DeclaresWrites) <==> s.writes)
      && (f == Some(DoesNotProduceTheValue) <==> !s.writes && ds !in s.outputs)
      && (f == Some(DidNotRun) <==> !s.writes && ds in s.outputs && (made.Some? ==> ds !in made.value))
      && (f == Some(CheckDidNotRun) <==>
           !s.writes && ds in s.outputs && made.Some? && ds in made.value && scope.judge(modelValue, made.value[ds]).None?)
      && (f == Some(CheckDidNotRun) ==> RunSubstitute(scope, s, inputs, modelValue, ds).value == Some(made.value[ds]))
  {}

  /** Two dispatchers do the same for one capacity on one set of inputs, and judge what came of it alike. */
  predicate RunAlike(a: Scope, b: Scope, c: Iri, inputs: map<Iri, Datum>, modelValue: Datum, ds: Iri) {
    var made := a.dispatch(c, inputs);
    && b.dispatch(c, inputs) == made
    && (made.Some? && ds in made.value ==> b.judge(modelValue, made.value[ds]) == a.judge(modelValue, made.value[ds]))
  }

  /** A run comes to the same wherever that one dispatch and that one check do; and if the substitute writes or does not
      make the value, it comes to no verdict whatever the dispatcher would do. */
  lemma OnlyItsOwnRunDecides(a: Scope, b: Scope, s: Decl, inputs: map<Iri, Datum>, modelValue: Datum, ds: Iri)
    requires !s.writes && ds in s.outputs ==> RunAlike(a, b, s.iri, inputs, modelValue, ds)
    ensures RunSubstitute(a, s, inputs, modelValue, ds) == RunSubstitute(b, s, inputs, modelValue, ds)
    ensures s.writes || ds !in s.outputs ==> RunSubstitute(a, s, inputs, modelValue, ds).agrees.None?
  {
    VerdictIsTheJudges(a, s, inputs, modelValue, ds);
    VerdictIsTheJudges(b, s, inputs, modelValue, ds);
  }
}
