/** The run graphs of one Episode, and what each value says of its own provenance. */
module Episodes {
  import opened Identifiers

  /** One value: the run graph it is in and its node. */
  datatype Ref = Ref(graph: Iri, instance: Iri)

  /** What a value holds; only ever handed on or compared. */
  datatype Datum = Datum(content: int)

  /** A node of a run graph. An origin record is a DataStateInstance of its own kind: the DataState it is
      about, and whether it records a reading by the model. */
  datatype Node =
    | CapacityNode(capacity: Iri)
    | ValueNode(datastate: Iri, value: Datum)
    | RecordNode(about: Iri, modelReading: bool)
    | OtherNode

  /** A capacity's entry in a run's own snapshot of declarations; an absent field was not recorded. */
  datatype Entry = Entry(
    consultsLlm: Option<bool>, answerInputs: Option<set<Iri>>, readsRoles: Option<set<Iri>>, readsMm: Option<bool>)

  /** Where a seeded start came from. */
  datatype Origin =
    | Given
    | Interpreted(modelCapacities: Option<seq<Iri>>, snapshot: Option<seq<Entry>>)
    | ProducedBy(sources: seq<Ref>)
    | OtherOrigin

  datatype Manifest = Manifest(declarations: Option<map<Iri, Entry>>, origins: Option<map<Iri, Origin>>)

  /** One run graph, with its PRODUCES (capacity to value) and CONSUMES (value to capacity) edges in order. */
  datatype Run = Run(nodes: map<Iri, Node>, produces: seq<(Iri, Iri)>, consumes: seq<(Iri, Iri)>, manifest: Option<Manifest>)
  {
    predicate IsCapacity(id: Iri) { id in nodes && nodes[id].CapacityNode? }

    /** The producing capacity instance, the last edge winning as in a dict. */
    function ProducerIn(es: seq<(Iri, Iri)>, id: Iri): (r: Option<Iri>)
      ensures r.Some? ==> (r.value, id) in es && IsCapacity(r.value)
      ensures r.None? ==> forall c :: (c, id) in es ==> !IsCapacity(c)
    {
      if es == [] then None
      else
        var last := es[|es| - 1];
        assert es == es[..|es| - 1] + [last];
        if last.1 == id && IsCapacity(last.0) then Some(last.0) else ProducerIn(es[..|es| - 1], id)
    }

    function Producer(id: Iri): Option<Iri> { ProducerIn(produces, id) }

    /** Of the capacities with an edge to a value, the one whose edge comes last made it. */
    lemma ProducerIsLast(id: Iri, p: Iri)
      ensures Producer(id) == Some(p) <==> exists k :: 0 <= k < |produces| && LastFrom(produces, k, id, p)
    {
      LastProducer(produces, id);
      if Producer(id) == Some(p) {
        var k :| 0 <= k < |produces| && LastFrom(produces, k, id, p);
      }
    }

    ghost predicate LastFrom(es: seq<(Iri, Iri)>, k: nat, id: Iri, p: Iri)
      requires k < |es|
    {
      es[k] == (p, id) && IsCapacity(p) && forall j | k < j < |es| && es[j].1 == id :: !IsCapacity(es[j].0)
    }

    lemma {:induction false} LastProducer(es: seq<(Iri, Iri)>, id: Iri)
      ensures forall p :: ProducerIn(es, id) == Some(p) <==> exists k :: 0 <= k < |es| && LastFrom(es, k, id, p)
    {
      if es != [] {
        var n := |es| - 1;
        var last, rest := es[n], es[..n];
        LastProducer(rest, id);
        forall p ensures ProducerIn(es, id) == Some(p) <==> exists k :: 0 <= k < |es| && LastFrom(es, k, id, p) {
          if last.1 == id && IsCapacity(last.0) {
            assert LastFrom(es, n, id, last.0);
          } else {
            assert forall k | 0 <= k < n :: LastFrom(rest, k, id, p) <==> LastFrom(es, k, id, p);
          }
        }
      }
    }

    /** First components of the edges into `to`. */
    function SourcesIn(es: seq<(Iri, Iri)>, to: Iri): (r: seq<Iri>)
      ensures forall x :: x in r <==> (x, to) in es
    {
      if es == [] then []
      else
        assert es == [es[0]] + es[1..];
        (if es[0].1 == to then [es[0].0] else []) + SourcesIn(es[1..], to)
    }

    /** Second components of the edges out of `from`. */
    function TargetsIn(es: seq<(Iri, Iri)>, from: Iri): (r: seq<Iri>)
      ensures forall x :: x in r <==> (from, x) in es
    {
      if es == [] then []
      else
        assert es == [es[0]] + es[1..];
        (if es[0].0 == from then [es[0].1] else []) + TargetsIn(es[1..], from)
    }

    function Produced(cap: Iri): seq<Iri> { TargetsIn(produces, cap) }
    function Consumed(cap: Iri): seq<Iri> { SourcesIn(consumes, cap) }
    function Consumers(id: Iri): seq<Iri> { TargetsIn(consumes, id) }

    function Declaration(cap: Iri): (r: Option<Entry>)
      ensures forall e :: r == Some(e) <==> exists m, ds, c ::
        manifest == Some(m) && m.declarations == Some(ds) && cap in nodes && nodes[cap] == CapacityNode(c) && c in ds && ds[c] == e
    {
      if manifest.Some? && manifest.value.declarations.Some? && IsCapacity(cap)
         && nodes[cap].capacity in manifest.value.declarations.value
      then Some(manifest.value.declarations.value[nodes[cap].capacity])
      else None
    }

    /** The recorded origin of a start, if origins were recorded and name it. */
    function OriginOf(ds: Iri): (r: Option<Origin>)
      ensures forall o :: r == Some(o) <==> exists m, os :: manifest == Some(m) && m.origins == Some(os) && ds in os && os[ds] == o
    {
      if manifest.Some? && manifest.value.origins.Some? && ds in manifest.value.origins.value
      then Some(manifest.value.origins.value[ds])
      else None
    }

    predicate OriginsRecorded() { manifest.Some? && manifest.value.origins.Some? }
    predicate IsValue(id: Iri) { id in nodes && nodes[id].ValueNode? }
    predicate IsRecord(id: Iri) { id in nodes && nodes[id].RecordNode? }
    predicate RecordsReading(id: Iri, ds: Iri) { IsRecord(id) && nodes[id].about == ds && nodes[id].modelReading }
    predicate Holds(id: Iri, ds: Iri) { IsValue(id) && nodes[id].datastate == ds }

    /** What each test on a node finds. */
    lemma NodesAre(id: Iri, ds: Iri)
      ensures IsCapacity(id) <==> exists c :: id in nodes && nodes[id] == CapacityNode(c)
      ensures IsValue(id) <==> exists d, v :: id in nodes && nodes[id] == ValueNode(d, v)
      ensures Holds(id, ds) <==> exists v :: id in nodes && nodes[id] == ValueNode(ds, v)
      ensures IsRecord(id) <==> exists d, m :: id in nodes && nodes[id] == RecordNode(d, m)
      ensures RecordsReading(id, ds) <==> id in nodes && nodes[id] == RecordNode(ds, true)
    {}
  }

  /** How a value is the model's. */
  datatype How = ReadByModel | ConsultsLlm | AnswerInput | InterpretedByModel

  /** Why a value's lineage is not recorded. */
  datatype Gap = OriginsNotRecorded | OriginUnrecorded | NotInTheEpisode | DeclarationsNotRecorded

  /** A value's own marks and gaps, its parents, and the value it is a copy of. */
  datatype Facts = Facts(hows: set<How>, gaps: set<Gap>, parents: seq<Ref>, copyOf: Option<Ref>)

  type Episode = map<Iri, Run>

  predicate InEpisode(runs: Episode, r: Ref) { r.graph in runs && r.instance in runs[r.graph].nodes }

  function RefsIn(graph: Iri, ids: seq<Iri>): (r: seq<Ref>)
    ensures |r| == |ids|
    ensures forall x :: x in r <==> x.graph == graph && x.instance in ids
  {
    var r := seq(|ids|, i requires 0 <= i < |ids| => Ref(graph, ids[i]));
    assert forall x: Ref | x.graph == graph && x.instance in ids :: x in r by {
      forall x: Ref | x.graph == graph && x.instance in ids ensures x in r {
        var k :| 0 <= k < |ids| && ids[k] == x.instance;
        assert r[k] == x;
      }
    }
    r
  }

  function Present(runs: Episode, sources: seq<Ref>): (r: seq<Ref>)
    ensures forall x :: x in r <==> x in sources && InEpisode(runs, x)
    ensures |r| <= |sources|
  {
    if sources == [] then [] else (if InEpisode(runs, sources[0]) then [sources[0]] else []) + Present(runs, sources[1..])
  }

  /** What a producing step says of its output. */
  function ProducedFacts(run: Run, graph: Iri, ds: Iri, producer: Iri): Facts {
    var entry := run.Declaration(producer);
    Facts(
      (if entry.Some? && entry.value.consultsLlm.Some? && entry.value.consultsLlm.value then {ConsultsLlm} else {})
        + (if exists s :: s in run.Produced(producer) && run.RecordsReading(s, ds) then {ReadByModel} else {}),
      if entry.None? || entry.value.consultsLlm.None? then {DeclarationsNotRecorded} else {},
      RefsIn(graph, run.Consumed(producer)),
      None)
  }

  /** What the manifest says of a start. */
  function StartFacts(runs: Episode, run: Run, ds: Iri): Facts {
    if !run.OriginsRecorded() then Facts({}, {OriginsNotRecorded}, [], None)
    else
      match run.OriginOf(ds)
      case None => Facts({}, {OriginUnrecorded}, [], None)
      case Some(OtherOrigin) => Facts({}, {OriginUnrecorded}, [], None)
      case Some(Given) => Facts({}, {}, [], None)
      case Some(Interpreted(used, _)) =>
        if used.None? then Facts({}, {DeclarationsNotRecorded}, [], None)
        else Facts(if used.value != [] then {InterpretedByModel} else {}, {}, [], None)
      case Some(ProducedBy(sources)) =>
        if sources == [] then Facts({}, {OriginUnrecorded}, [], None)
        else
          var parents := Present(runs, sources);
          Facts({}, if |parents| < |sources| then {NotInTheEpisode} else {}, parents,
            if |sources| == 1 && parents == sources && runs[sources[0].graph].Holds(sources[0].instance, ds) then Some(sources[0]) else None)
  }

  /** `_own`: a value's marks, gaps, parents and original, its consumers' declarations included. */
  function OwnFacts(runs: Episode, graph: Iri, id: Iri): Facts
    requires graph in runs && runs[graph].IsValue(id)
  {
    var run := runs[graph];
    var ds := run.nodes[id].datastate;
    var own := match run.Producer(id)
      case Some(p) => ProducedFacts(run, graph, ds, p)
      case None => StartFacts(runs, run, ds);
    own.(
      hows := own.hows + (if exists c :: c in run.Consumers(id) && run.IsCapacity(c) && TakesAsAnswer(run, c, ds) then {AnswerInput} else {}),
      gaps := own.gaps + (if exists c :: c in run.Consumers(id) && run.IsCapacity(c) && AnswersNotRecorded(run, c) then {DeclarationsNotRecorded} else {}))
  }

  predicate TakesAsAnswer(run: Run, c: Iri, ds: Iri) {
    run.Declaration(c).Some? && run.Declaration(c).value.answerInputs.Some? && ds in run.Declaration(c).value.answerInputs.value
  }

  predicate AnswersNotRecorded(run: Run, c: Iri) {
    run.Declaration(c).None? || run.Declaration(c).value.answerInputs.None?
  }

  predicate IsEpisodeValue(runs: Episode, r: Ref) { r.graph in runs && runs[r.graph].IsValue(r.instance) }

  /** Nothing unrecorded and nothing of the model's: given, interpreted without the model, carried over from values of the
      Episode, or made by a step recorded as not consulting it and without a model reading beside it. */
  ghost predicate CleanOrigin(runs: Episode, run: Run, id: Iri, ds: Iri) {
    match run.Producer(id)
    case Some(p) =>
      && run.Declaration(p).Some? && run.Declaration(p).value.consultsLlm.Some? && !run.Declaration(p).value.consultsLlm.value
      && forall s | s in run.Produced(p) :: !run.RecordsReading(s, ds)
    case None => run.OriginOf(ds).Some? && CleanStart(runs, run.OriginOf(ds).value)
  }

  ghost predicate CleanStart(runs: Episode, origin: Origin) {
    match origin
    case Given => true
    case Interpreted(used, _) => used == Some([])
    case ProducedBy(sources) => sources != [] && forall s | s in sources :: InEpisode(runs, s)
    case OtherOrigin => false
  }

  /** Every step that consumed it recorded its answer inputs, and it is none of them. */
  ghost predicate CleanUse(run: Run, id: Iri, ds: Iri) {
    forall c | c in run.Consumers(id) && run.IsCapacity(c) :: !TakesAsAnswer(run, c, ds) && !AnswersNotRecorded(run, c)
  }

  /** A value is unmarked and without gaps exactly when its origin and its uses are clean. */
  lemma UnmarkedExactly(runs: Episode, r: Ref)
    requires IsEpisodeValue(runs, r)
    ensures var f := OwnFacts(runs, r.graph, r.instance); var run := runs[r.graph]; var ds := run.nodes[r.instance].datastate;
      f.hows == {} && f.gaps == {} <==> CleanOrigin(runs, run, r.instance, ds) && CleanUse(run, r.instance, ds)
  {
    var run := runs[r.graph];
    var ds := run.nodes[r.instance].datastate;
    match run.Producer(r.instance) {
      case Some(p) => ProducedUnmarked(run, r.graph, ds, p);
      case None => StartUnmarked(runs, run, ds);
    }
  }

  lemma ProducedUnmarked(run: Run, graph: Iri, ds: Iri, p: Iri)
    ensures var f := ProducedFacts(run, graph, ds, p);
      f.hows == {} && f.gaps == {} <==>
        && run.Declaration(p).Some? && run.Declaration(p).value.consultsLlm.Some? && !run.Declaration(p).value.consultsLlm.value
        && forall s | s in run.Produced(p) :: !run.RecordsReading(s, ds)
  {
    var f := ProducedFacts(run, graph, ds, p);
    var entry := run.Declaration(p);
    assert ConsultsLlm in f.hows <==> entry.Some? && entry.value.consultsLlm.Some? && entry.value.consultsLlm.value;
    assert ReadByModel in f.hows <==> exists s :: s in run.Produced(p) && run.RecordsReading(s, ds);
  }

  lemma StartUnmarked(runs: Episode, run: Run, ds: Iri)
    ensures var f := StartFacts(runs, run, ds);
      f.hows == {} && f.gaps == {} <==> run.OriginOf(ds).Some? && CleanStart(runs, run.OriginOf(ds).value)
  {
    if run.OriginOf(ds).Some? && run.OriginOf(ds).value.ProducedBy? { AllPresent(runs, run.OriginOf(ds).value.sources); }
  }

  /** A copy is of one value only, of the same DataState, and that is its one parent. */
  lemma CopyIsOfItsOneParent(runs: Episode, r: Ref)
    requires IsEpisodeValue(runs, r) && OwnFacts(runs, r.graph, r.instance).copyOf.Some?
    ensures var f := OwnFacts(runs, r.graph, r.instance);
      && f.parents == [f.copyOf.value] && IsEpisodeValue(runs, f.copyOf.value)
      && runs[f.copyOf.value.graph].nodes[f.copyOf.value.instance].datastate == runs[r.graph].nodes[r.instance].datastate
      && runs[r.graph].Producer(r.instance).None?
  {}

  lemma {:induction false} AllPresent(runs: Episode, sources: seq<Ref>)
    ensures |Present(runs, sources)| == |sources| <==> forall b | b in sources :: InEpisode(runs, b)
  {
    if sources != [] { AllPresent(runs, sources[1..]); }
  }
}
