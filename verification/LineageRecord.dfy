/** The lineage read back from the run graphs: what marks a value, what is missing of it, and what it was drawn from. */
module LineageRecords {
  import opened Identifiers
  import opened Graphs
  import opened Folding
  import opened Episodes
  import opened CopyClasses
  import opened Lineages

  // ---- one value's facts ----

  /** A step recorded as consulting the model made it. */
  ghost predicate MadeConsulting(run: Run, id: Iri) {
    exists p, e :: run.Producer(id) == Some(p) && run.Declaration(p) == Some(e) && e.consultsLlm == Some(true)
  }

  /** A reading of its DataState by the model was put down by the step that made it. */
  ghost predicate ReadBeside(run: Run, id: Iri, ds: Iri) {
    exists p, s :: run.Producer(id) == Some(p) && (p, s) in run.produces && run.RecordsReading(s, ds)
  }

  /** A start that some capacity of the model interpreted. */
  ghost predicate InterpretedByIt(run: Run, id: Iri, ds: Iri) {
    run.Producer(id).None? && exists used, snapshot :: run.OriginOf(ds) == Some(Interpreted(Some(used), snapshot)) && used != []
  }

  /** Some step took it as one of its recorded answer inputs. */
  ghost predicate TakenAsAnswer(run: Run, id: Iri, ds: Iri) {
    exists c, e, answers :: (id, c) in run.consumes && run.Declaration(c) == Some(e) && e.answerInputs == Some(answers) && ds in answers
  }

  /** A declaration that should say how the model came in is missing, or its field is. */
  ghost predicate Undeclared(run: Run, id: Iri, ds: Iri) {
    || (exists p :: run.Producer(id) == Some(p) && forall e :: run.Declaration(p) == Some(e) ==> e.consultsLlm == None)
    || (run.Producer(id) == None && exists snapshot :: run.OriginOf(ds) == Some(Interpreted(None, snapshot)))
    || (exists c :: (id, c) in run.consumes && run.IsCapacity(c) && forall e :: run.Declaration(c) == Some(e) ==> e.answerInputs == None)
  }

  /** The manifest has origins, and of this start none that says where it came from. */
  ghost predicate OriginMissing(run: Run, id: Iri, ds: Iri) {
    && run.Producer(id) == None && (exists m, os :: run.manifest == Some(m) && m.origins == Some(os))
    && run.OriginOf(ds) in {None, Some(OtherOrigin), Some(ProducedBy([]))}
  }

  /** A start carried over from something that is not in the Episode. */
  ghost predicate SourceMissing(runs: Episode, run: Run, id: Iri, ds: Iri) {
    run.Producer(id) == None && exists sources, s :: run.OriginOf(ds) == Some(ProducedBy(sources)) && s in sources && !InEpisode(runs, s)
  }

  ghost predicate NoOrigins(run: Run, id: Iri) {
    run.Producer(id) == None && forall m :: run.manifest == Some(m) ==> m.origins == None
  }

  /** How the record shows the model in a value. */
  ghost predicate MarkIs(runs: Episode, r: Ref, how: How)
    requires IsEpisodeValue(runs, r)
  {
    var run, id := runs[r.graph], r.instance;
    var ds := run.nodes[id].datastate;
    match how
    case ConsultsLlm => MadeConsulting(run, id)
    case ReadByModel => ReadBeside(run, id, ds)
    case InterpretedByModel => InterpretedByIt(run, id, ds)
    case AnswerInput => TakenAsAnswer(run, id, ds)
  }

  /** Why the record does not show where a value is from. */
  ghost predicate GapIs(runs: Episode, r: Ref, k: Gap)
    requires IsEpisodeValue(runs, r)
  {
    var run, id := runs[r.graph], r.instance;
    var ds := run.nodes[id].datastate;
    match k
    case DeclarationsNotRecorded => Undeclared(run, id, ds)
    case OriginsNotRecorded => NoOrigins(run, id)
    case OriginUnrecorded => OriginMissing(run, id, ds)
    case NotInTheEpisode => SourceMissing(runs, run, id, ds)
  }

  /** A value is marked exactly as the record shows the model in it. */
  lemma MarksExactly(runs: Episode, r: Ref)
    requires IsEpisodeValue(runs, r)
    ensures forall how :: how in OwnFacts(runs, r.graph, r.instance).hows <==> MarkIs(runs, r, how)
  {
    EachMark(runs, r);
    forall how ensures how in OwnFacts(runs, r.graph, r.instance).hows <==> MarkIs(runs, r, how) {
      match how {
        case ConsultsLlm =>
        case ReadByModel =>
        case InterpretedByModel =>
        case AnswerInput =>
      }
    }
  }

  lemma EachMark(runs: Episode, r: Ref)
    requires IsEpisodeValue(runs, r)
    ensures var hows := OwnFacts(runs, r.graph, r.instance).hows; var run := runs[r.graph]; var ds := run.nodes[r.instance].datastate;
      && (ConsultsLlm in hows <==> MadeConsulting(run, r.instance)) && (ReadByModel in hows <==> ReadBeside(run, r.instance, ds))
      && (InterpretedByModel in hows <==> InterpretedByIt(run, r.instance, ds)) && (AnswerInput in hows <==> TakenAsAnswer(run, r.instance, ds))
  {
    var run := runs[r.graph];
    var ds := run.nodes[r.instance].datastate;
    AnswersAre(run, r.instance, ds);
    match run.Producer(r.instance) {
      case Some(p) => ProducedMarks(run, r.graph, r.instance, ds, p);
      case None => StartMarks(runs, run, r.instance, ds);
    }
  }

  lemma AnswersAre(run: Run, id: Iri, ds: Iri)
    ensures (exists c :: c in run.Consumers(id) && run.IsCapacity(c) && TakesAsAnswer(run, c, ds)) <==> TakenAsAnswer(run, id, ds)
  {
    if c, e, answers :|
      (id, c) in run.consumes && run.Declaration(c) == Some(e) && e.answerInputs == Some(answers) && ds in answers
    {
      assert c in run.Consumers(id) && run.IsCapacity(c) && TakesAsAnswer(run, c, ds);
    }
  }

  lemma ProducedMarks(run: Run, graph: Iri, id: Iri, ds: Iri, p: Iri)
    requires run.Producer(id) == Some(p)
    ensures var hows := ProducedFacts(run, graph, ds, p).hows;
      && (ConsultsLlm in hows <==> MadeConsulting(run, id)) && (ReadByModel in hows <==> ReadBeside(run, id, ds))
      && InterpretedByModel !in hows && AnswerInput !in hows
  {
    var hows := ProducedFacts(run, graph, ds, p).hows;
    assert ReadByModel in hows <==> exists s :: s in run.Produced(p) && run.RecordsReading(s, ds);
  }

  lemma StartMarks(runs: Episode, run: Run, id: Iri, ds: Iri)
    requires run.Producer(id).None?
    ensures var hows := StartFacts(runs, run, ds).hows;
      && ConsultsLlm !in hows && ReadByModel !in hows && AnswerInput !in hows && (InterpretedByModel in hows <==> InterpretedByIt(run, id, ds))
  {}

  /** And has exactly the gaps that are in the record. */
  lemma GapsExactly(runs: Episode, r: Ref)
    requires IsEpisodeValue(runs, r)
    ensures forall k :: k in OwnFacts(runs, r.graph, r.instance).gaps <==> GapIs(runs, r, k)
  {
    EachGap(runs, r);
    forall k ensures k in OwnFacts(runs, r.graph, r.instance).gaps <==> GapIs(runs, r, k) {
      match k {
        case DeclarationsNotRecorded =>
        case OriginsNotRecorded =>
        case OriginUnrecorded =>
        case NotInTheEpisode =>
      }
    }
  }

  lemma EachGap(runs: Episode, r: Ref)
    requires IsEpisodeValue(runs, r)
    ensures var gaps := OwnFacts(runs, r.graph, r.instance).gaps; var run := runs[r.graph]; var ds := run.nodes[r.instance].datastate;
      && (DeclarationsNotRecorded in gaps <==> Undeclared(run, r.instance, ds))
      && (OriginsNotRecorded in gaps <==> NoOrigins(run, r.instance)) && (OriginUnrecorded in gaps <==> OriginMissing(run, r.instance, ds))
      && (NotInTheEpisode in gaps <==> SourceMissing(runs, run, r.instance, ds))
  {
    var run := runs[r.graph];
    var ds := run.nodes[r.instance].datastate;
    match run.Producer(r.instance) {
      case Some(p) => ProducedGaps(run, r.graph, r.instance, ds, p);
      case None => StartGaps(runs, run, r.instance, ds);
    }
    UndeclaredUses(run, r.instance);
  }

  /** The step that made it, or its origin, leaves open how the model came in. */
  ghost predicate UndeclaredOrigin(run: Run, id: Iri, ds: Iri) {
    || (exists p :: run.Producer(id) == Some(p) && forall e :: run.Declaration(p) == Some(e) ==> e.consultsLlm == None)
    || (run.Producer(id) == None && exists snapshot :: run.OriginOf(ds) == Some(Interpreted(None, snapshot)))
  }

  lemma UndeclaredUses(run: Run, id: Iri)
    ensures (exists c :: c in run.Consumers(id) && run.IsCapacity(c) && AnswersNotRecorded(run, c)) <==>
      exists c :: (id, c) in run.consumes && run.IsCapacity(c) && forall e :: run.Declaration(c) == Some(e) ==> e.answerInputs == None
  {
    forall c ensures AnswersNotRecorded(run, c) <==> forall e :: run.Declaration(c) == Some(e) ==> e.answerInputs == None {}
    if c :| (id, c) in run.consumes && run.IsCapacity(c) && AnswersNotRecorded(run, c) { assert c in run.Consumers(id); }
  }

  lemma ProducedGaps(run: Run, graph: Iri, id: Iri, ds: Iri, p: Iri)
    requires run.Producer(id) == Some(p)
    ensures var gaps := ProducedFacts(run, graph, ds, p).gaps;
      && (DeclarationsNotRecorded in gaps <==> UndeclaredOrigin(run, id, ds))
      && OriginsNotRecorded !in gaps && OriginUnrecorded !in gaps && NotInTheEpisode !in gaps
  {}

  lemma StartGaps(runs: Episode, run: Run, id: Iri, ds: Iri)
    requires run.Producer(id).None?
    ensures var gaps := StartFacts(runs, run, ds).gaps;
      && (DeclarationsNotRecorded in gaps <==> UndeclaredOrigin(run, id, ds))
      && (OriginsNotRecorded in gaps <==> NoOrigins(run, id)) && (OriginUnrecorded in gaps <==> OriginMissing(run, id, ds))
      && (NotInTheEpisode in gaps <==> SourceMissing(runs, run, id, ds))
  {
    if run.OriginOf(ds).Some? && run.OriginOf(ds).value.ProducedBy? { AllPresent(runs, run.OriginOf(ds).value.sources); }
  }

  // ---- what a value was drawn from ----

  /** A step consumed `a` and made `b`; or `b` is a start carried over from `a`, which is in the Episode. */
  ghost predicate Drawn(runs: Episode, a: Ref, b: Ref)
    requires IsEpisodeValue(runs, b)
  {
    var run := runs[b.graph];
    || (a.graph == b.graph && exists c :: (a.instance, c) in run.consumes && run.Producer(b.instance) == Some(c))
    || (run.Producer(b.instance) == None && InEpisode(runs, a)
        && exists sources :: run.OriginOf(run.nodes[b.instance].datastate) == Some(ProducedBy(sources)) && a in sources)
  }

  /** `b` is a start carried over from `a` alone, and holds the same DataState. */
  ghost predicate CarriedOver(runs: Episode, a: Ref, b: Ref)
    requires IsEpisodeValue(runs, b)
  {
    var run := runs[b.graph];
    var ds := run.nodes[b.instance].datastate;
    && run.Producer(b.instance) == None && run.OriginOf(ds) == Some(ProducedBy([a]))
    && IsEpisodeValue(runs, a) && runs[a.graph].nodes[a.instance].datastate == ds
  }

  /** The parents of a value are what it was drawn from, and it is a copy of what it was carried over from alone. */
  lemma ParentsExactly(runs: Episode, b: Ref)
    requires IsEpisodeValue(runs, b)
    ensures var f := OwnFacts(runs, b.graph, b.instance);
      (forall a :: a in f.parents <==> Drawn(runs, a, b)) && forall a :: f.copyOf == Some(a) <==> CarriedOver(runs, a, b)
  {
    var run := runs[b.graph];
    var ds := run.nodes[b.instance].datastate;
    if run.Producer(b.instance).None? { StartParents(runs, run, ds); }
  }

  lemma StartParents(runs: Episode, run: Run, ds: Iri)
    ensures var f := StartFacts(runs, run, ds);
      && (forall a :: a in f.parents <==>
            InEpisode(runs, a) && exists sources :: run.OriginOf(ds) == Some(ProducedBy(sources)) && a in sources)
      && (forall a :: f.copyOf == Some(a) <==>
            run.OriginOf(ds) == Some(ProducedBy([a])) && IsEpisodeValue(runs, a) && runs[a.graph].nodes[a.instance].datastate == ds)
  {
    if run.OriginOf(ds).Some? && run.OriginOf(ds).value.ProducedBy? {
      var sources := run.OriginOf(ds).value.sources;
      if |sources| == 1 {
        assert sources == [sources[0]];
        assert Present(runs, sources) == if InEpisode(runs, sources[0]) then sources else [];
      }
    }
  }

  // ---- the walk, over the edges of the record ----

  /** Each value drawn from the next. */
  ghost predicate DrawnChain(runs: Episode, chain: seq<Ref>) {
    && chain != [] && (forall r | r in chain :: IsEpisodeValue(runs, r))
    && forall i | 0 <= i < |chain| - 1 :: Drawn(runs, chain[i + 1], chain[i])
  }

  /** Copies by any number of carryings over, either way. */
  ghost predicate CopyChain(runs: Episode, chain: seq<Ref>) {
    && chain != [] && (forall r | r in chain :: IsEpisodeValue(runs, r))
    && forall i | 0 <= i < |chain| - 1 :: CarriedOver(runs, chain[i], chain[i + 1]) || CarriedOver(runs, chain[i + 1], chain[i])
  }

  lemma BuiltSays(l: Lineage, h: Height, r: Ref)
    requires Built(l, h)
    ensures r in l.own <==> IsEpisodeValue(l.runs, r)
    ensures r in l.own ==> l.own[r] == OwnFacts(l.runs, r.graph, r.instance)
  {
    assert Asked(0);
    assert r == Ref(r.graph, r.instance);
  }

  lemma {:induction false} ChainReaches(l: Lineage, h: Height, chain: seq<Ref>, i: nat)
    requires Built(l, h) && DrawnChain(l.runs, chain) && i < |chain|
    ensures chain[i] in l.own && Reaches(Parents(l.own), chain[0], chain[i])
  {
    BuiltSays(l, h, chain[i]);
    if i > 0 {
      ChainReaches(l, h, chain, i - 1);
      BuiltSays(l, h, chain[i - 1]);
      ParentsExactly(l.runs, chain[i - 1]);
      assert Drawn(l.runs, chain[i], chain[i - 1]);
      assert chain[i] in Next(Parents(l.own), chain[i - 1]);
      ReachesStep(Parents(l.own), chain[0], chain[i - 1], chain[i]);
    }
  }

  lemma {:induction false} CopiesAreSame(l: Lineage, h: Height, chain: seq<Ref>, i: nat)
    requires Built(l, h) && CopyChain(l.runs, chain) && i < |chain|
    ensures chain[i] in l.own && SameValue(CopyPairs(l.own), chain[i], chain[0])
  {
    BuiltSays(l, h, chain[i]);
    if i > 0 {
      CopiesAreSame(l, h, chain, i - 1);
      CarriedIsPaired(l, h, chain[i - 1], chain[i]);
    }
  }

  lemma CarriedIsPaired(l: Lineage, h: Height, a: Ref, b: Ref)
    requires Built(l, h) && IsEpisodeValue(l.runs, a) && IsEpisodeValue(l.runs, b)
    requires CarriedOver(l.runs, a, b) || CarriedOver(l.runs, b, a)
    ensures (b, a) in CopyPairs(l.own) || (a, b) in CopyPairs(l.own)
  {
    BuiltSays(l, h, a);
    BuiltSays(l, h, b);
    ParentsExactly(l.runs, a);
    ParentsExactly(l.runs, b);
  }

  /** Whoever descends, over the edges of the runs and from run to run, from a value with a gap is listed with that gap. */
  lemma DescendantHasGap(l: Lineage, h: Height, chain: seq<Ref>, k: Gap)
    requires Built(l, h) && DrawnChain(l.runs, chain) && GapIs(l.runs, chain[|chain| - 1], k)
    ensures Listing(l, chain[0]).Some? && (chain[|chain| - 1], k) in Listing(l, chain[0]).value.gaps
  {
    var from := chain[|chain| - 1];
    ChainReaches(l, h, chain, |chain| - 1);
    BuiltSays(l, h, from);
    GapsExactly(l.runs, from);
    assert (from, k) in GapsOf(l, chain[0]);
  }

  /** And from a copy of a value that is the model's, with that model value. */
  lemma DescendantIsListed(l: Lineage, h: Height, chain: seq<Ref>, copies: seq<Ref>, how: How)
    requires Built(l, h) && DrawnChain(l.runs, chain) && CopyChain(l.runs, copies) && copies[0] == chain[|chain| - 1]
    requires MarkIs(l.runs, copies[|copies| - 1], how)
    ensures Listing(l, chain[0]).Some? && copies[|copies| - 1] in Listing(l, chain[0]).value.models
  {
    var from, copy := chain[|chain| - 1], copies[|copies| - 1];
    ChainReaches(l, h, chain, |chain| - 1);
    CopiesAreSame(l, h, copies, |copies| - 1);
    BuiltSays(l, h, copy);
    MarksExactly(l.runs, copy);
    assert copy in MarksOf(l, from);
    assert copy in ModelsOf(l, chain[0]);
  }

  /** One step: what is made from a value of the model, or from one with a gap, is listed. */
  lemma StepIsListed(l: Lineage, h: Height, a: Ref, b: Ref, c: Iri)
    requires Built(l, h) && IsEpisodeValue(l.runs, a) && IsEpisodeValue(l.runs, b) && a.graph == b.graph
    requires (a.instance, c) in l.runs[a.graph].consumes && l.runs[b.graph].Producer(b.instance) == Some(c)
    requires (exists how :: MarkIs(l.runs, a, how)) || exists k :: GapIs(l.runs, a, k)
    ensures Listing(l, b).Some?
  {
    assert DrawnChain(l.runs, [b, a]) && CopyChain(l.runs, [a]);
    if how :| MarkIs(l.runs, a, how) { DescendantIsListed(l, h, [b, a], [a], how); }
    if k :| GapIs(l.runs, a, k) { DescendantHasGap(l, h, [b, a], k); }
  }

  /** And only those are: each gap an entry names is of a value on a chain of draws. */
  lemma GapIsBelow(l: Lineage, h: Height, r: Ref, v: Ref, k: Gap)
    requires Built(l, h) && r in l.own && Listing(l, r).Some? && (v, k) in Listing(l, r).value.gaps
    ensures IsEpisodeValue(l.runs, v) && GapIs(l.runs, v, k) && DescendsFrom(l.runs, r, v)
  {
    BuiltSays(l, h, v);
    GapsExactly(l.runs, v);
    ReachesDescends(l, h, r, v);
  }

  /** And each model value is a copy, by a chain of carryings over, of one on such a chain. */
  lemma ModelIsBelow(l: Lineage, h: Height, r: Ref, m: Ref) returns (v: Ref, how: How)
    requires Built(l, h) && r in l.own && Listing(l, r).Some? && m in Listing(l, r).value.models
    ensures IsEpisodeValue(l.runs, m) && MarkIs(l.runs, m, how) && DescendsFrom(l.runs, r, v) && CopiesOf(l.runs, m, v)
  {
    v :| v in l.own && m in MarksOf(l, v) && Reaches(Parents(l.own), r, v);
    BuiltSays(l, h, m);
    MarksExactly(l.runs, m);
    how :| how in l.own[m].hows;
    ReachesDescends(l, h, r, v);
    SameIsCopies(l, h, m, v);
  }

  ghost predicate DescendsFrom(runs: Episode, r: Ref, v: Ref) {
    exists chain :: DrawnChain(runs, chain) && chain[0] == r && chain[|chain| - 1] == v
  }

  ghost predicate CopiesOf(runs: Episode, m: Ref, v: Ref) {
    exists chain :: CopyChain(runs, chain) && chain[0] == v && chain[|chain| - 1] == m
  }

  lemma ReachesDescends(l: Lineage, h: Height, r: Ref, v: Ref)
    requires Built(l, h) && r in l.own && v in l.own && Reaches(Parents(l.own), r, v)
    ensures DescendsFrom(l.runs, r, v)
  {
    var g := Parents(l.own);
    var s := set x | x in Nodes(g) + {r} && (x in l.own ==> DescendsFrom(l.runs, r, x));
    BuiltSays(l, h, r);
    assert DrawnChain(l.runs, [r]);
    assert DescendsFrom(l.runs, r, r);
    forall x, y | x in s && y in Next(g, x) ensures y in s {
      NextInNodes(g, x);
      if y in l.own { OneMoreDraw(l, h, r, x, y); }
    }
    assert ClosedUnder(g, s);
  }

  lemma OneMoreDraw(l: Lineage, h: Height, r: Ref, x: Ref, y: Ref)
    requires Built(l, h) && x in l.own && y in l.own && y in Next(Parents(l.own), x) && DescendsFrom(l.runs, r, x)
    ensures DescendsFrom(l.runs, r, y)
  {
    var chain :| DrawnChain(l.runs, chain) && chain[0] == r && chain[|chain| - 1] == x;
    BuiltSays(l, h, x);
    BuiltSays(l, h, y);
    ParentsExactly(l.runs, x);
    var more := chain + [y];
    forall i | 0 <= i < |more| - 1 ensures Drawn(l.runs, more[i + 1], more[i]) {
      if i < |chain| - 1 { assert Drawn(l.runs, chain[i + 1], chain[i]); }
    }
    assert DrawnChain(l.runs, more);
  }

  lemma SameIsCopies(l: Lineage, h: Height, m: Ref, v: Ref)
    requires Built(l, h) && m in l.own && v in l.own && SameValue(CopyPairs(l.own), m, v)
    ensures CopiesOf(l.runs, m, v)
  {
    var s := set x | x in l.own && CopiesOf(l.runs, x, m);
    BuiltSays(l, h, m);
    assert CopyChain(l.runs, [m]);
    assert CopiesOf(l.runs, m, m);
    forall p | p in CopyPairs(l.own) ensures p.0 in s <==> p.1 in s { PairStays(l, h, m, p.0, p.1); }
    assert Respects(CopyPairs(l.own), s);
    var chain :| CopyChain(l.runs, chain) && chain[0] == m && chain[|chain| - 1] == v;
    CopiesBack(l.runs, chain);
  }

  lemma PairStays(l: Lineage, h: Height, m: Ref, x: Ref, y: Ref)
    requires Built(l, h) && (x, y) in CopyPairs(l.own)
    ensures x in l.own && y in l.own && (CopiesOf(l.runs, x, m) <==> CopiesOf(l.runs, y, m))
  {
    BuiltSays(l, h, x);
    ParentsExactly(l.runs, x);
    assert CarriedOver(l.runs, y, x);
    BuiltSays(l, h, y);
    if CopiesOf(l.runs, x, m) { OneMoreCopy(l.runs, x, y, m); }
    if CopiesOf(l.runs, y, m) { OneMoreCopy(l.runs, y, x, m); }
  }

  lemma OneMoreCopy(runs: Episode, x: Ref, y: Ref, m: Ref)
    requires IsEpisodeValue(runs, x) && IsEpisodeValue(runs, y) && (CarriedOver(runs, x, y) || CarriedOver(runs, y, x)) && CopiesOf(runs, x, m)
    ensures CopiesOf(runs, y, m)
  {
    var chain :| CopyChain(runs, chain) && chain[0] == m && chain[|chain| - 1] == x;
    var more := chain + [y];
    forall i | 0 <= i < |more| - 1 ensures CarriedOver(runs, more[i], more[i + 1]) || CarriedOver(runs, more[i + 1], more[i]) {
      if i < |chain| - 1 { assert more[i] == chain[i] && more[i + 1] == chain[i + 1]; }
    }
    assert CopyChain(runs, more);
  }

  lemma CopiesBack(runs: Episode, chain: seq<Ref>)
    requires CopyChain(runs, chain)
    ensures CopiesOf(runs, chain[0], chain[|chain| - 1])
  {
    var n := |chain|;
    var back := seq(n, i requires 0 <= i < n => chain[n - 1 - i]);
    forall r | r in back ensures IsEpisodeValue(runs, r) {
      var i :| 0 <= i < n && back[i] == r;
      assert r in chain;
    }
    forall i | 0 <= i < n - 1 ensures CarriedOver(runs, back[i], back[i + 1]) || CarriedOver(runs, back[i + 1], back[i]) {
      assert back[i] == chain[n - 1 - i] && back[i + 1] == chain[n - 2 - i];
      assert chain[n - 2 - i + 1] == chain[n - 1 - i];
    }
    assert CopyChain(runs, back) && back[0] == chain[n - 1] && back[n - 1] == chain[0];
  }
}
