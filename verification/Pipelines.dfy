/** Routes, verdicts, and what it takes for a route to be well formed and to run. */
module Pipelines {
  import opened Identifiers
  import opened Catalogs

  /** The edge producer that stands for a start DataState. */
  const START: int := -1

  datatype DagStep = DagStep(capacity: Iri, inputs: seq<Iri>, outputs: seq<Iri>)
  datatype DagEdge = DagEdge(producer: int, consumer: int, datastate: Iri)
  datatype Pipeline = Pipeline(starts: set<Iri>, target: Iri, steps: seq<DagStep>, edges: seq<DagEdge>)

  datatype Reason = BfsExhausted | NoSatisfiableProducer | MaxDepthExceeded | RequiredInputUnproducible

  /** `FindVerdict`: a route, or an honest don't-know with the inputs that could not be produced. */
  datatype FindVerdict = Route(pipeline: Pipeline) | NoRoute(reason: Reason, unproducible: map<Iri, seq<Iri>>)

  function SeqSet(s: seq<Iri>): set<Iri> { set x | x in s }

  predicate IsStepOf(cat: Catalog, step: DagStep) {
    && step.capacity in cat.caps && !cat.Refused(step.capacity)
    && step.inputs == cat.Inputs(step.capacity) && step.outputs == cat.Outputs(step.capacity)
  }

  ghost predicate Distinct(steps: seq<DagStep>) {
    forall i, j | 0 <= i < j < |steps| :: steps[i].capacity != steps[j].capacity
  }

  predicate EdgeFits(starts: set<Iri>, steps: seq<DagStep>, e: DagEdge) {
    && START <= e.producer < e.consumer < |steps| && 0 <= e.consumer
    && e.datastate in steps[e.consumer].inputs
    && (if e.producer == START then e.datastate in starts else e.datastate in steps[e.producer].outputs)
  }

  predicate Feeds(edges: seq<DagEdge>, i: int) { exists e :: e in edges && e.producer == i }

  predicate WiredAt(edges: seq<DagEdge>, i: int, d: Iri) { exists e :: e in edges && e.consumer == i && e.datastate == d }

  /** What is on the blackboard when step `i` is dispatched: the starts and every earlier output. */
  function Blackboard(starts: set<Iri>, steps: seq<DagStep>, i: nat): set<Iri>
    requires i <= |steps|
  {
    if i == 0 then starts else Blackboard(starts, steps, i - 1) + SeqSet(steps[i - 1].outputs)
  }

  /** What a capacity's group asks to be there. */
  predicate InputsPresent(cat: Catalog, c: Iri, held: set<Iri>) {
    match cat.GroupOf(c)
    case Fold => true
    case AnyOf => cat.Inputs(c) == [] || exists d :: d in cat.Inputs(c) && d in held
    case AllRequired => forall d | d in cat.Inputs(c) :: d in held
  }

  /** A value as the operand check sees it. */
  datatype Shape = NoList | ListOf(length: nat)

  datatype InputRefusal = MissingRequired | UnexpectedInput | OperandArity

  /** A key that is never an input, whoever hands it over. */
  const CONTEXT := Iri("context")

  /** Each input that is there and declares more than one operand is a list of just so many. */
  predicate OperandsFit(handed: map<Iri, Shape>, arity: map<Iri, int>) {
    forall k | k in arity && arity[k] > 1 && k in handed && k != CONTEXT :: handed[k].ListOf? && handed[k].length == arity[k]
  }

  /** `_validate_inputs`: what is missing, then what is not declared, then the operands; a fold is not checked. */
  function ValidateInputs(cat: Catalog, c: Iri, handed: map<Iri, Shape>, arity: map<Iri, int>): Option<InputRefusal> {
    var present := handed.Keys - {CONTEXT};
    if cat.GroupOf(c) == Fold then None
    else if !InputsPresent(cat, c, present) then Some(MissingRequired)
    else if exists k :: k in present && k !in cat.Inputs(c) then Some(UnexpectedInput)
    else if !OperandsFit(handed, arity) then Some(OperandArity)
    else None
  }

  /** What each refusal comes of, in the order of the checks: the group lacks an input it asks for, something handed over is
      no input, or an operand list has the wrong length; a fold is refused for none of these. */
  lemma RefusedFor(cat: Catalog, c: Iri, handed: map<Iri, Shape>, arity: map<Iri, int>)
    ensures var r := ValidateInputs(cat, c, handed, arity); var checked := cat.GroupOf(c) != Fold;
      && (r == Some(MissingRequired) <==> checked && !InputsPresent(cat, c, handed.Keys - {CONTEXT}))
      && (r == Some(UnexpectedInput) <==>
           && checked && InputsPresent(cat, c, handed.Keys - {CONTEXT})
           && exists k :: k in handed && k != CONTEXT && k !in cat.Inputs(c))
      && (r == Some(OperandArity) <==>
           && checked && InputsPresent(cat, c, handed.Keys - {CONTEXT})
           && (forall k | k in handed && k != CONTEXT :: k in cat.Inputs(c))
           && exists k :: k in handed && k != CONTEXT && k in arity && arity[k] >= 2 && !OfLength(handed[k], arity[k]))
  {}

  predicate OfLength(v: Shape, n: int) {
    match v
    case NoList => false
    case ListOf(length) => length == n
  }

  /** What `execute_pipeline` hands a step: those of its declared inputs that are on the blackboard. */
  function Handed(step: DagStep, board: map<Iri, Shape>): map<Iri, Shape> {
    map d | d in step.inputs && d in board :: board[d]
  }

  /** Handed so, nothing is ever unexpected; what is there is missing nothing exactly if the group has what it asks for. */
  lemma HandedIsExpected(cat: Catalog, step: DagStep, board: map<Iri, Shape>, arity: map<Iri, int>)
    requires IsStepOf(cat, step) && CONTEXT !in step.inputs && cat.GroupOf(step.capacity) != Fold
    ensures var r := ValidateInputs(cat, step.capacity, Handed(step, board), arity);
      && r != Some(UnexpectedInput)
      && (r == Some(MissingRequired) <==> !InputsPresent(cat, step.capacity, board.Keys))
      && (r == None <==> InputsPresent(cat, step.capacity, board.Keys) && OperandsFit(Handed(step, board), arity))
  {
    var present := Handed(step, board).Keys - {CONTEXT};
    assert forall d | d in step.inputs :: d in present <==> d in board;
  }

  lemma {:induction false} BlackboardHolds(starts: set<Iri>, steps: seq<DagStep>, i: nat, d: Iri)
    requires i <= |steps|
    ensures d in Blackboard(starts, steps, i) <==> d in starts || exists j :: 0 <= j < i && d in steps[j].outputs
  {
    if i > 0 { BlackboardHolds(starts, steps, i - 1, d); }
  }
}
