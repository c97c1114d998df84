/** When a value is proven model-free, and what its proof rests on. */
module Proofs {
  import opened Identifiers
  import opened Graphs
  import opened Episodes
  import opened CopyClasses
  import opened Lineages
  import opened Substitutes
  import opened Tallies
  import opened Folding

  const MODEL_MADE := {ReadByModel, ConsultsLlm}

  /** A step's declared reads, as recorded. */
  function ReadStops(entry: Entry): set<Reason> {
    if entry.readsRoles.None? || entry.readsMm.None? then {ReadsNotRecorded}
    else if entry.readsMm.value then {ReadsTheMentalModel} else {}
  }

  function ReadRoles(entry: Entry): set<Iri> {
    if entry.readsRoles.None? || entry.readsMm.None? then {} else entry.readsRoles.value
  }

  predicate ReadByOne(entries: seq<Entry>, role: Iri) { exists e :: e in entries && role in ReadRoles(e) }

  function HoldersIn(run: Run, ids: seq<Iri>, d: Iri): (r: seq<Iri>)
    ensures forall x :: x in r <==> x in ids && run.Holds(x, d)
  {
    if ids == [] then [] else (if run.Holds(ids[0], d) then [ids[0]] else []) + HoldersIn(run, ids[1..], d)
  }

  /** One of some values is marked in one of some ways. */
  predicate SomeHow(l: Lineage, values: set<Ref>, hows: set<How>) {
    exists m :: m in values && m in l.own && l.own[m].hows * hows != {}
  }

  /** Why a substitute is passed over, given whether it still pairs, what is withheld, and whether its inputs are there. */
  function RefusalFor(s: Decl, pairs: bool, withheld: set<Iri>, there: bool): Option<Failure> {
    if s.readsMm then Some(ReadsTheMentalModelItself)
    else if !pairs then Some(NoLongerPairs)
    else if exists d :: d in s.inputs && d in withheld then Some(TakesAWithheldAnswer)
    else if !there then Some(InputsNotInTheGraph)
    else None
  }

  /** The first reason that applies is the one named, and nothing is passed over without one. */
  lemma RefusalsNamed(s: Decl, pairs: bool, withheld: set<Iri>, there: bool)
    ensures var f := RefusalFor(s, pairs, withheld, there); var takes := exists d :: d in s.inputs && d in withheld;
      && (f == Some(ReadsTheMentalModelItself) <==> s.readsMm)
      && (f == Some(NoLongerPairs) <==> !s.readsMm && !pairs)
      && (f == Some(TakesAWithheldAnswer) <==> !s.readsMm && pairs && takes)
      && (f == Some(InputsNotInTheGraph) <==> !s.readsMm && pairs && !takes && !there)
      && (f == None <==> !s.readsMm && pairs && !takes && there)
  {}

  /** What there is to judge by: the lineage of an Episode and the substitutes in scope. */
  datatype Evidence = Evidence(l: Lineage, scope: Scope)
  {
    predicate Here(x: Ref) { x in l.own && IsEpisodeValue(l.runs, x) }

    function RunOf(x: Ref): Run requires Here(x) { l.runs[x.graph] }
    function ProducerOf(x: Ref): Option<Iri> requires Here(x) { RunOf(x).Producer(x.instance) }
    function DatastateOf(x: Ref): Iri requires Here(x) { RunOf(x).nodes[x.instance].datastate }

    /** The model's, made by a step of its own run. */
    predicate ModelMade(x: Ref) requires Here(x) { ProducerOf(x).Some? && l.own[x].hows * MODEL_MADE != {} }

    function ReaderOf(x: Ref): Iri
      requires Here(x) && ModelMade(x)
    {
      RunOf(x).nodes[ProducerOf(x).value].capacity
    }

    function SubstitutesOf(x: Ref): seq<Decl>
      requires Here(x) && ModelMade(x)
    {
      scope.SubstitutesFor(ReaderOf(x))
    }

    function Withheld(x: Ref): set<Iri>
      requires Here(x) && ModelMade(x)
    {
      var entry := RunOf(x).Declaration(ProducerOf(x).value);
      if entry.Some? && entry.value.answerInputs.Some? then entry.value.answerInputs.value else {}
    }

    /** What the producing step consumed as `d`. */
    function ConsumedAs(x: Ref, d: Iri): seq<Iri>
      requires Here(x) && ModelMade(x)
    {
      HoldersIn(RunOf(x), RunOf(x).Consumed(ProducerOf(x).value), d)
    }

    predicate AllThere(x: Ref, inputs: seq<Iri>)
      requires Here(x) && ModelMade(x)
    {
      forall d | d in inputs :: |ConsumedAs(x, d)| == 1
    }

    /** Why a substitute is passed over, before any of its inputs is looked into. */
    function Refusal(x: Ref, s: Decl): Option<Failure>
      requires Here(x) && ModelMade(x) && s in SubstitutesOf(x)
    {
      RefusalFor(s, scope.Pairs(s, ReaderOf(x)), Withheld(x), AllThere(x, s.inputs))
    }

    predicate Viable(x: Ref, s: Decl)
      requires Here(x) && ModelMade(x)
    {
      s in SubstitutesOf(x) && Refusal(x, s).None?
    }

    function InputsFor(x: Ref, inputs: seq<Iri>): set<Ref>
      requires Here(x) && ModelMade(x)
    {
      set d, id | d in inputs && id in ConsumedAs(x, d) :: Ref(x.graph, id)
    }

    function InputValue(x: Ref, d: Iri): Datum
      requires Here(x) && ModelMade(x) && |ConsumedAs(x, d)| == 1
    {
      var id := ConsumedAs(x, d)[0];
      assert id in ConsumedAs(x, d);
      RunOf(x).nodes[id].value
    }

    /** The values a step consumed as `inputs`, each found once. */
    function FoundFor(x: Ref, inputs: seq<Iri>): (r: seq<Ref>)
      requires Here(x) && ModelMade(x) && AllThere(x, inputs)
      ensures forall y :: y in r <==> exists d :: d in inputs && y.graph == x.graph && y.instance in ConsumedAs(x, d)
    {
      if inputs == [] then []
      else
        assert inputs == [inputs[0]] + inputs[1..];
        assert ConsumedAs(x, inputs[0]) == [ConsumedAs(x, inputs[0])[0]];
        [Ref(x.graph, ConsumedAs(x, inputs[0])[0])] + FoundFor(x, inputs[1..])
    }

    function InputValues(x: Ref, inputs: seq<Iri>): map<Iri, Datum>
      requires Here(x) && ModelMade(x) && AllThere(x, inputs)
    {
      map d | d in inputs :: InputValue(x, d)
    }

    /** What running a substitute on the recorded inputs comes to. */
    function Outcome(x: Ref, s: Decl): SubstituteRun
      requires Here(x) && ModelMade(x) && Viable(x, s)
    {
      RunSubstitute(scope, s, InputValues(x, s.inputs), RunOf(x).nodes[x.instance].value, DatastateOf(x))
    }

    function CaseOf(x: Ref, s: Decl): (c: Case)
      requires Here(x) && ModelMade(x) && s in SubstitutesOf(x)
      ensures c.substitute == s
    {
      if Refusal(x, s).Some? then Passed(s, Refusal(x, s).value) else Judged(s, Outcome(x, s))
    }

    function CasesOf(x: Ref): (cs: seq<Case>)
      requires Here(x) && ModelMade(x)
      ensures |cs| == |SubstitutesOf(x)| && forall i | 0 <= i < |cs| :: cs[i] == CaseOf(x, SubstitutesOf(x)[i])
    {
      var subs := SubstitutesOf(x);
      seq(|subs|, i requires 0 <= i < |subs| => CaseOf(x, subs[i]))
    }

    // ---- what a value rests on, and what speaks against it ----

    /** The values a proof of `x` needs proven first. */
    ghost function Deps(x: Ref): set<Ref>
      requires Here(x)
    {
      if ModelMade(x) then set s, y | s in SubstitutesOf(x) && Refusal(x, s).None? && y in InputsFor(x, s.inputs) :: y
      else set p | p in l.own[x].parents
    }

    ghost function Needs(): Graph<Ref>
    {
      map x | x in l.own && Here(x) :: Deps(x)
    }

    /** A copy of it was handed to some step as the model's answer. */
    ghost predicate WasAnAnswer(x: Ref) { SomeHow(l, MarksOf(l, x), {AnswerInput}) }

    /** Something in its lineage was made by the model. */
    ghost predicate RestsOnModelMade(x: Ref) { SomeHow(l, ModelsOf(l, x), MODEL_MADE) }

    ghost function AnswerStops(x: Ref): set<Reason> {
      if WasAnAnswer(x) && !RestsOnModelMade(x) then {ModelAnswerNotExcisable} else {}
    }

    /** What the record says against a step's output. */
    function StepStops(x: Ref): set<Reason>
      requires Here(x) && ProducerOf(x).Some?
    {
      var run, p := RunOf(x), ProducerOf(x).value;
      (if run.Declaration(p).Some? then ReadStops(run.Declaration(p).value) else {})
      + (if exists c :: c in run.Consumed(p) && run.IsRecord(c) then {ConsumedAnOriginRecord} else {})
    }

    /** What the record says against a start. */
    function StartStops(x: Ref): set<Reason>
      requires Here(x)
    {
      match RunOf(x).OriginOf(DatastateOf(x))
      case Some(Interpreted(used, snapshot)) =>
        (if used.Some? && used.value != [] then {InterpretedWithTheModel} else {})
        + (if snapshot.None? then {InterpretationNotRecorded} else set e, k | e in snapshot.value && k in ReadStops(e) :: k)
      case _ => {}
    }

    /** What speaks against a model-made value whatever its inputs come to. */
    ghost function RereadStops(x: Ref): set<Reason>
      requires Here(x) && ModelMade(x)
    {
      if CasesOf(x) == [] then {NotYetExcisable}
      else
        (if SomeMissing(CasesOf(x)) then {NotInTheGroundingGraph} else {})
        + (if SomeJudged(CasesOf(x)) then {} else {NoSubstituteAgreed})
    }

    ghost function LocalStops(x: Ref): set<Reason>
      requires Here(x)
    {
      (set g | g in l.own[x].gaps :: LineageGap(g))
      + if ModelMade(x) then RereadStops(x)
        else AnswerStops(x) + if ProducerOf(x).Some? then StepStops(x) else StartStops(x)
    }

    /** What running the substitutes would say against it: one disagrees, or none agrees. */
    ghost function RunStops(x: Ref): set<Reason>
      requires Here(x)
    {
      if ModelMade(x) && SomeJudged(CasesOf(x)) then VerdictStops(CasesOf(x)) else {}
    }

    ghost predicate Sound(x: Ref)
    {
      Here(x) ==> LocalStops(x) == {} && RunStops(x) == {}
    }

    ghost predicate OnLoop(x: Ref)
    {
      ReachesBeyond(Needs(), x, x)
    }

    /** `x` is one of `sources` or something they need, however far down. */
    ghost predicate Under(sources: set<Ref>, x: Ref)
    {
      exists d :: d in sources && Reaches(Needs(), d, x)
    }

    /** Proven model-free: everything the values rest on is sound, and nothing they rest on rests on itself. */
    ghost predicate Proven(sources: set<Ref>)
    {
      forall x | Under(sources, x) :: Sound(x) && !OnLoop(x)
    }

    ghost predicate LoopFree(sources: set<Ref>)
    {
      forall x | Under(sources, x) :: !OnLoop(x)
    }

    // ---- what a proof reports ----

    /** A start taken as a premise: given, or interpreted with its declarations recorded. */
    predicate IsPremise(x: Ref)
      requires Here(x)
    {
      && !ModelMade(x) && ProducerOf(x).None?
      && match RunOf(x).OriginOf(DatastateOf(x))
         case Some(Given) => true
         case Some(Interpreted(_, snapshot)) => snapshot.Some?
         case _ => false
    }

    function RederivationOf(x: Ref): Rederivation
      requires Here(x) && ModelMade(x)
    {
      Rederivation(ReaderOf(x), RunsOf(CasesOf(x), true), AgreedRoles(CasesOf(x)))
    }

    /** The stored roles read on the way: those the step declared, or those an agreeing substitute declares now. */
    ghost predicate ReadsRole(x: Ref, role: Iri)
      requires Here(x)
    {
      if ModelMade(x) then role in RolesIn(AgreedRoles(CasesOf(x)))
      else if ProducerOf(x).Some? then
        RunOf(x).Declaration(ProducerOf(x).value).Some? && role in ReadRoles(RunOf(x).Declaration(ProducerOf(x).value).value)
      else
        match RunOf(x).OriginOf(DatastateOf(x))
        case Some(Interpreted(_, snapshot)) => snapshot.Some? && ReadByOne(snapshot.value, role)
        case _ => false
    }

    ghost predicate RederivedFit(sources: set<Ref>, rederived: map<Ref, Rederivation>)
    {
      && (forall x :: x in rederived <==> Under(sources, x) && Here(x) && ModelMade(x))
      && (forall x | x in rederived && Here(x) && ModelMade(x) :: rederived[x] == RederivationOf(x))
    }

    ghost predicate PremisesFit(sources: set<Ref>, premises: set<Ref>)
    {
      forall x :: x in premises <==> Under(sources, x) && Here(x) && IsPremise(x)
    }

    ghost predicate RolesFit(sources: set<Ref>, roles: set<Iri>)
    {
      forall role :: role in roles <==> exists x :: Under(sources, x) && Here(x) && ReadsRole(x, role)
    }

    /** The report of a value that is proven: everything it rests on and nothing else. */
    ghost predicate Reports(sources: set<Ref>, p: Partial)
    {
      RederivedFit(sources, p.rederived) && PremisesFit(sources, p.premises) && RolesFit(sources, p.roles)
    }

    ghost predicate Stops(x: Ref, k: Reason)
    {
      Here(x) && (k in LocalStops(x) || (k in RunStops(x) && Proven(Deps(x))))
    }

    /** Nothing is named without cause: a value's own stops, or a loop it is on. */
    ghost predicate HasCause(x: Ref, k: Reason)
    {
      Here(x) && (k in LocalStops(x) || k in RunStops(x) || (k == LineageLoops && OnLoop(x)))
    }

    /** What `prove` answers for `sources` together. */
    ghost predicate Answers(sources: set<Ref>, p: Partial)
    {
      && (p.notProven == {} <==> Proven(sources))
      && (Proven(sources) ==> Reports(sources, p))
      && (forall n | n in p.notProven :: Under(sources, n.0) && HasCause(n.0, n.1))
      && (LoopFree(sources) ==> forall n :: n in p.notProven <==> Under(sources, n.0) && Stops(n.0, n.1))
    }
  }

  // ---- answers kept folded ----

  ghost predicate Answered(e: Evidence, sources: set<Ref>, p: Partial) {
    forall key {:trigger Asked(key)} :: Asked(key) ==> e.Answers(sources, p)
  }

  lemma Unfold(e: Evidence, sources: set<Ref>, p: Partial)
    ensures Answered(e, sources, p) <==> e.Answers(sources, p)
  {
    assert Asked(0);
  }
}
