# Finders, provenance and run state of MindsOS, modelled and proved in Dafny

`dafny verify dfyconfig.toml` checks the whole project.

The model covers the parts of the repository where a result depends on many steps agreeing with one another:

- **The pipeline finders.** A catalog of capacities turns DataStates into DataStates; a finder composes a route from the
  DataStates given to the one asked for. `Catalog.dfy` defines derivability as a least fixpoint, and everything the finders
  do is related to it: `Reachability.dfy` (the first phase of `ConjunctionFinder`), `Conjunction.dfy` (its second phase as a
  function), `ConjunctionFinder.dfy` (the same as the code does it, on fields), `ConjunctionReasons.dfy`, `RouteForm.dfy`,
  `Agreement.dfy` and `FoldFanIn.dfy` (what it answers, what its routes are like and when it finds one), `BfsSearch.dfy` (the
  breadth-first walk as functions), `BfsFinder.dfy` (the same as loops, and what it finds) and `BfsOrder.dfy` (the order it
  goes in, and what it can have missed), `Strata.dfy` and `FixpointFinder.dfy`
  (the bottom-up form kept in `confirmation_docs/finder_variants_model.py`), `Views.dfy` and `Admission.dfy` (what a finder
  reads the catalog through). `AnyOfLimits.dfy`, `BfsLimits.dfy`, `BfsShortcuts.dfy` and `FixpointLimits.dfy` give the
  catalogs on which broader claims fail.
- **Excision.** Which values of an Episode leaned on the borrowed model, and which of those are proven without it:
  `Episodes.dfy`, `CopyClasses.dfy` and `Lineages.dfy` (the lineage walk), `Substitutes.dfy`, `Tallies.dfy`, `Proofs.dfy`,
  `ProofSteps.dfy` and `Prover.dfy` (the prover), `ModelIndependence.dfy` (what a proof takes from the dispatcher). What the
  walk and the prover answer is read back from the recorded edges, declarations and origins in `LineageRecord.dfy`,
  `ProofRecord.dfy` and `ProofMeaning.dfy`.
- **Components with state.** `MapFold.dfy` (map carriers, the re-run of one member, the fold's gate), `Executor.dfy` (the
  priority-tier heap), `Registry.dfy` (the instance cascade), `RunRefs.dfy` (run references), `EditDistance.dfy` and
  `Similarity.dfy`; and a run's grounding graph: `Grounding.dfy` (its nodes and edges), `NodeIds.dfy` (its printed ids),
  `Identity.dfy` (the registry of ids that the graphs of a metagraph share), `GroundingIds.dfy` and `GroundingOutputs.dfy` (what
  a writer registers), `GroundingWriter.dfy` (the writer) and `GroundingRuns.dfy` (any number of runs, and what is refused).
- **Snapshots.** Nodes, edges and whatever else hangs from a dict are objects on the heap: `DeepCopy.dfy` (`copy.deepcopy` of
  a dict), `GraphSnap.dfy` (one graph), `GraphRestore.dfy` (all graphs), `CrossReferences.dfy`, `Snapshot.dfy` (capture and
  restore in place) and `SnapshotTrips.dfy` (with any use of the metagraph in between).

Dispatch, the agreement check and the running of map members are function parameters: deterministic and otherwise unknown.
A section that the code runs under a lock is one method. Where the code iterates over a dict or a set and the outcome should
not depend on the order, the method here picks in any order, so what is proved holds for the code's order too.

Three conventions recur. A predicate such as `Derivable`, `Reaches` or `Doomed` says "in every closed set", which is the
least fixpoint without recursion. A fact that is only handed on is kept folded behind `Folding.Asked`, so that a proof sees it
only where it asks. And each imperative method is proved against a function or predicate on values, about which the lemmas
speak.

## What came out

- The two phases of `ConjunctionFinder` agree on every target for which no `any_of` capacity that has two different inputs, can
  be satisfied and leads to the target lies on a cycle (`Agreement.PhasesAgree`), which covers catalogs without `any_of` and
  acyclic catalogs with any groups. The class docstring says they "must agree" without that condition; `AnyOfLimits` has the two
  ways in which they do not.
- `BFSFinder` is shortest and complete, among all that the input check lets run, when every capacity has an input, has at most
  one that is not given at the start, and cannot run without one of them (`BfsFinder.ShortestOfAllThatRun`). Each part is needed.
  With two inputs not given, a catalog has a linear route of four steps that it misses (`BfsLimits.ExistingRouteMissed`), and
  with a detour added it returns five steps where four would do (`BfsLimits.LongerRouteReturned`); a route may exist while no
  linear one does. A capacity without inputs, an `any_of` with one of its inputs given and a fold run as they are, yet the search
  never takes the first, and takes the others only with all of their inputs: it misses a route of one step
  (`BfsShortcuts.RunningRouteMissed`) or returns two steps where one would do (`BfsShortcuts.LongerThanNeeded`). A comment in
  `find` (`mindsos_capacity/pipeline.py:492-498`) takes the search's test for the input check's, so that nothing that ran would be
  lost; of `any_of` and folds that check asks less.
- The rule `fp_dep` never re-enters a capacity under construction, on any catalog; but on a cycle it may refuse every feeder
  of an input and lose a route the shipped finder has (`FixpointLimits`). It finds a construction exactly when, among the
  capacities the first producer of the target needs, none that must have all of its inputs is without a feeder for one
  (`FixpointFinder.Find`); what is needed depends on the catalog and the starts alone, not on how the walk goes.
- The prover's verdict on a value does not depend on what it proved before or is in the middle of proving. It is "proven"
  exactly when, along every chain of what a proof asks for next, each value stands by the record and none comes twice
  (`ProofMeanings.ProvenExactly`); so no proven value rests on a start that a model's capacity interpreted, nor on anything the
  model made or read unless a substitute was run on the recorded inputs and agreed, none disagreeing
  (`ProofMeanings.ModelValuesAreRederived`).
- A breadth-first don't-know is not "there is no route": it has one linear route to each DataState it came to, and is closed
  under what those routes with the starts suffice for, no further (`BfsOrder.NoRouteIsClosed`).
- A member re-run leaves what a full fan-out over the latest outcomes would, with one exception: when it targets a member at
  least two places beyond those the last run had, the grounding ids fall out of step with the mask and the origins, which are
  padded while the ids are appended (`MapFold.SpliceIsRecomputation` states it both ways).
- A proof that a value is model-free takes nothing from the dispatcher but the runs of substitutes, without writes, on recorded
  inputs: what it would do for the model's readers makes no difference (`ModelIndependence.ProofIgnoresTheModel`).
- A restore brings back everything a snapshot covers, after any use of the metagraph, up to which objects hold it
  (`SnapshotTrips.RoundTrip`), with two exceptions; the class docstring says every mutable attribute is captured and restored.
  The soft-delete dirty sets of graphs it has to build anew stay empty (`Snapshots.Metagraph.Restore` says exactly when, and
  `SnapshotTrips.DirtyIsLost` is a run). And each dict is copied for itself, so what two dicts shared they no longer share: after
  a restore no endpoint of an edge and no member of a hyperedge is one of the graph's own node objects
  (`SnapshotTrips.EndpointsOfTheCopy`), while sharing within one dict is as it was (`SnapshotTrips.SharedWithinOneDict`).
- No printed id is ever two nodes', over any calls on any number of writers of one metagraph (`GroundingRuns.Perform`), because
  the registry of ids refuses the second. Of one run's own it refuses a value or an invocation exactly when the type has been
  given more numbers under its other name, bare or with its prefix, than under this one: the id builders strip the prefix, the
  counters do not (`NodeIds.PrintedAlike`, `GroundingRuns.ValueRefused`, `GroundingRuns.CapacityRefused`). A run that seeds a
  DataState under its bare name and then under its full one is refused the second, not a third
  (`GroundingRuns.SecondNameRefused`). The number is used up all the same, and when an output is refused the invocation and the
  outputs before it stay (`GroundingWriters.Writer.Record`). Of different runs no two ids are ever equal but the raw task's,
  which one request has for all of its runs, as long as `#` is in no type name and `.` in no run reference
  (`NodeIds.PrintedAcrossRuns`).
- The executor loses a piece of work exactly when its request id is submitted again while it waits
  (`Executors.Executor.Submit`, `Executors.DuplicateLosesATask`).

## Model

| member | source | states |
|---|---|---|
| `Catalogs.DerivableMonotoneInStarts` | mindsos_capacity/pipeline.py:676-700 | more starts derive at least as much |
| `Catalogs.RankFixpoint` | confirmation_docs/finder_variants_model.py:125-158 | there is a ranking, each DataState above what it comes from, that has every derivable one |
| `Reachability.DsReachableIsExact` | mindsos_capacity/pipeline.py:676-700 | the cycle-stack recursion decides, for any stack, derivability that never produces what is on the stack |
| `Reachability.DsReachableDecidesDerivable` | mindsos_capacity/pipeline.py:676-700 | from the empty stack the recursion decides the least fixpoint, `any_of` included |
| `Reachability.ReachableAntitoneInStack` | mindsos_capacity/pipeline.py:676-700 | a longer stack never makes more reachable |
| `Reachability.SomeSatisfiableProducerIffDerivable` | mindsos_capacity/pipeline.py:702-712 | a target not held has a satisfiable producer exactly when it is derivable |
| `Conjunction.Search.FindFiresTheFirst` | mindsos_capacity/pipeline.py:702-845 | when some producer of a target not held is satisfiable, the verdict is that of firing, from nothing, the satisfiable one that is first by IRI |
| `ConjunctionReasons.NoRouteSays` | mindsos_capacity/pipeline.py:702-835 | each reason says what it names: no satisfiable producer, a chain of suppliers one longer than the depth allows, or the one non-start input of an `all_required` capacity that is listed; only the last lists anything |
| `ConjunctionReasons.FirstStep` | mindsos_capacity/pipeline.py:754-845 | a negative depth builds nothing; from depth 0 the first producer with all inputs given is the route, one step, each input wired from its start in declared order |
| `ConjunctionFinder.Construction.Fire` | mindsos_capacity/pipeline.py:754-812 | the in-place construction, with its memo, in-flight set and depth, refines the functional one step for step |
| `ConjunctionFinder.Construction.WireInput` | mindsos_capacity/pipeline.py:764-793 | one input is wired, skipped or aborts exactly as in the functional form |
| `ConjunctionFinder.Construction.FanIn` | mindsos_capacity/pipeline.py:794-806 | the chosen producers are fired in order and wired, each from the state the one before left |
| `ConjunctionFinder.Find` | mindsos_capacity/pipeline.py:652-845 | the method answers what the functional search answers, route or reason |
| `RouteForm.FoundRouteIsWellFormed` | mindsos_capacity/pipeline.py:754-845 | every route on every catalog: no capacity twice, edges from START or an earlier step carrying an output into an input, every `all_required` input fed, every step but the last feeding a later one, the last making the target |
| `RouteForm.WellFormedRouteRuns` | mindsos_capacity/capacity.py:414-482 | a step of a well-formed route that is not `any_of`, has no inputs or has one wired is refused by the input check for nothing missing and nothing unexpected, and for an operand list exactly when one has the wrong length |
| `Agreement.PhasesAgree` | mindsos_capacity/pipeline.py:652-845 | with no capacity on a cycle that chooses among inputs, can be satisfied and leads to the target, a derivable target gets a fully wired route, or the depth reason and that only when the depth is below the number of non-start DataStates; an underivable one gets the no-producer reason |
| `Agreement.NoAnyOfAgrees` | mindsos_capacity/pipeline.py:652-845 | where no capacity chooses and with depth enough, a route is found exactly when the target is derivable |
| `Agreement.FindMonotoneInStarts` | mindsos_capacity/pipeline.py:652-845 | what is found from some starts is found from more, with depth enough and, from those, no such capacity on a cycle |
| `Agreement.AgreedRouteRuns` | mindsos_capacity/capacity.py:414-482 | so is every step of an agreed route, from the starts, handed what is on the blackboard |
| `Agreement.SatisfiableIsEligible` | mindsos_capacity/pipeline.py:724-752 | what the first phase admits under the live stack the second does not refuse |
| `FoldFanIn.FoldsDrawFromAllDerivableProducers` | mindsos_capacity/pipeline.py:764-814 | on acyclic catalogs each fold input not held is fed by exactly the producers the first phase admits from the empty stack |
| `FoldFanIn.FoldsDrawFromDerivable` | mindsos_capacity/pipeline.py:764-814 | that is, by exactly the producers that what is derivable satisfies |
| `FoldFanIn.RoutesDrawExactly` | mindsos_capacity/pipeline.py:764-814 | on acyclic catalogs every step of a route: a fold draws an input that is not held from all satisfiable producers, any other step from the first of them by IRI, and from nothing else |
| `FoldFanIn.StepsDrawFromTheFirst` | mindsos_capacity/pipeline.py:776-786 | the same for a step that is no fold, by derivability alone: it draws from the producer that what is derivable satisfies and that no other such producer precedes |
| `Reachability.CapSatisfiableFromDerivable` | mindsos_capacity/pipeline.py:686-700 | a capacity is admitted from the empty stack exactly when what is derivable satisfies it |
| `FoldFanIn.StackIrrelevant` | mindsos_capacity/pipeline.py:676-700 | on acyclic catalogs the stack decides nothing |
| `AnyOfLimits.AncestorRefusedAborts` | mindsos_capacity/pipeline.py:750-793 | a catalog where an in-flight `any_of` ancestor is refused and an `all_required` step aborts on a derivable target |
| `AnyOfLimits.AncestorRefusedLeavesStepUnfed` | mindsos_capacity/pipeline.py:750-793 | a catalog where the route found has an `any_of` step with nothing wired, which the input check refuses |
| `Admission.UnavailableInputs` | mindsos_capacity/admission.py:47-70 | exactly the declared inputs not to hand, in order |
| `BfsFinder.Find` | mindsos_capacity/pipeline.py:443-531 | the loops answer what the functional walk answers; on every catalog a route found is linear, repeats no capacity, is within the depth, has all inputs of each step before it, comes from a chain of its length and is no longer than any chain of hops each sufficient with the starts; none is found only if every such chain is too long |
| `BfsOrder.SearchIsLogged` | mindsos_capacity/pipeline.py:467-531 | on every catalog the search comes to the starts, then to each DataState once, from the first that leads to it by entry, consumer and output; an entry leads on by every unrefused consumer with all its inputs on that path; the route is the first lead to the target, and there is none exactly when all leads are seen and none is |
| `BfsOrder.NoRouteIsClosed` | mindsos_capacity/pipeline.py:475-531 | a don't-know leaves a linear route to each DataState come to, the starts by the empty one; wherever one is shorter than the depth, every unrefused consumer with all inputs on its blackboard has only outputs come to, none the target |
| `BfsFinder.ShortestOfAllThatRun` | mindsos_capacity/pipeline.py:443-531 | when every capacity has an input, at most one from outside the starts, and cannot run without one of them, a route is found exactly when some sequence that the input check lets run makes the target within the depth, and none such is shorter |
| `BfsFinder.LinearIsChain` | mindsos_capacity/pipeline.py:467-531 | a linear route is a chain of capacities from a start to the target |
| `BfsFinder.ChainsAreLonger` | mindsos_capacity/pipeline.py:467-531 | while everything nearer than a level is expanded, every chain of self-sufficient hops to the target is longer than the level |
| `BfsFinder.Take` | mindsos_capacity/pipeline.py:475-523 | a capacity is taken only when all its inputs are on this path's blackboard, and keeps the route linear |
| `BfsFinder.Expand` | mindsos_capacity/pipeline.py:475-523 | taking one entry off the queue keeps the invariant: levels in order, each DataState seen once, nearest first |
| `BfsLimits.DerivableWithoutLinearRoute` | mindsos_capacity/pipeline.py:475-523 | a derivable target that no linear route of any length reaches |
| `BfsLimits.ExistingRouteMissed` | mindsos_capacity/pipeline.py:443-531 | a catalog with a linear route of four steps for which the search answers exhausted at any depth from four |
| `BfsLimits.LongerRouteReturned` | mindsos_capacity/pipeline.py:443-531 | the same with a detour: five steps are returned where four would do |
| `BfsLimits.DetourExists` | mindsos_capacity/pipeline.py:443-531 | there are such catalogs, for any names |
| `BfsShortcuts.OneCapacityAlone` | mindsos_capacity/pipeline.py:486-498 | in a catalog of one capacity that makes the target: it is a route when the input check lets it run on the starts, and is found exactly when it has inputs and all are given |
| `BfsShortcuts.RunningRouteMissed` | mindsos_capacity/pipeline.py:486-498 | a capacity without inputs, an `any_of` of a start and something else, or a fold of something else runs on the start and makes the target, and the search answers exhausted at any depth |
| `BfsShortcuts.LongerThanNeeded` | mindsos_capacity/pipeline.py:443-531 | with a way round of two capacities besides, two steps are returned where one would do |
| `BfsShortcuts.ShortcutsExist` | mindsos_capacity/pipeline.py:443-531 | there are such catalogs, for any names |
| `Views.View.WalksAreInverse` | mindsos_capacity/views.py:337-353 | a capacity produces (consumes) a DataState for the view exactly when the DataState is among its outputs (inputs), in the shadow union too |
| `Views.View.LocalFirst` | mindsos_capacity/capacity_layer.py:922-960 | a locally declared capacity is read from there whatever is declared globally, any other from the Global store; likewise what is a collection |
| `Views.View.CatalogShows` | mindsos_capacity/views.py:136-184 | a finder sees the visible capacities, each with the edges of the store that shows it and the group it is declared with, refused when declared a substitute or to take several values of a scalar |
| `Views.View.DeclarationRefusals` | mindsos_capacity/admission.py:106-157 | refused are exactly the visible capacities declared as substitutes or to take several values of a scalar, each with the inputs to name: all of a substitute's, otherwise those scalars |
| `Views.View.CatalogIsValid` | mindsos_capacity/views.py:136-184 | what a view shows is a catalog as the finders' theorems require |
| `Strata.Stratify` | confirmation_docs/finder_variants_model.py:125-158 | the bottom-up loop ends with exactly the derivable DataStates and the satisfiable capacities, each at its stratum |
| `Strata.Pass` | confirmation_docs/finder_variants_model.py:130-156 | a pass that adds nothing has reached the fixpoint |
| `Strata.StratumIsLeast` | confirmation_docs/finder_variants_model.py:139-150 | the stratum given is 1 or the least above what satisfies the capacity |
| `FixpointFinder.DepClosure` | confirmation_docs/finder_variants_model.py:173-195 | the loop computes exactly the transitive consumption over the satisfiable part |
| `FixpointFinder.Construction.Emit` | confirmation_docs/finder_variants_model.py:225-258 | on any catalog a capacity under construction is never entered again; steps stay distinct and in order |
| `FixpointFinder.Plan.ClearBelow` | confirmation_docs/finder_variants_model.py:209-222 | building an admissible feeder never comes to need anything under construction |
| `FixpointFinder.Plan.PicksExactly` | confirmation_docs/finder_variants_model.py:225-250 | a fold is fed by every satisfiable producer whose building can never need one of its outputs, any other capacity by the first of these by IRI |
| `FixpointFinder.Find` | confirmation_docs/finder_variants_model.py:198-268 | unreachable exactly when not derivable; found exactly when the target is a start or nothing is stuck among what its first satisfiable producer needs, which on acyclic catalogs is when it is derivable; a construction found is distinct and ordered, and is exactly what the satisfiable producer of the target that is first by IRI needs, it last; a dead end is an input nothing admissible makes |
| `FixpointFinder.Build` | confirmation_docs/finder_variants_model.py:225-258 | construction from a capacity succeeds exactly when every needed capacity that must have all its inputs can be fed each, and then builds what is needed and nothing else; otherwise it stops at a needed one that cannot |
| `FixpointFinder.AcyclicAdmitsAll` | confirmation_docs/finder_variants_model.py:209-222 | on acyclic catalogs the rule refuses no producer |
| `FixpointLimits.ReplacementLosesRoute` | confirmation_docs/finder_variants_model.py:209-222 | on the knot no construction the rule allows ends with the derivable target |
| `FixpointLimits.ShippedFinderKeepsRoute` | mindsos_capacity/pipeline.py:652-845 | on the same catalog the shipped finder has a route at its default depth |
| `Episodes.UnmarkedExactly` | mindsos_intelligence/excision.py:494-550 | a value has no marks and no gaps exactly when it was given, interpreted without the model, carried over from the Episode or made by a step recorded as not consulting it with no reading beside it, and every consumer recorded not taking it as an answer |
| `Episodes.Run.ProducerIsLast` | mindsos_intelligence/excision.py:455-472 | of the capacities with an edge to a value the one whose edge comes last made it |
| `LineageRecords.MarksExactly` | mindsos_intelligence/excision.py:494-550 | a value is marked exactly as the record shows: made by a step recorded as consulting the model, with a model reading put down beside it, interpreted by a model capacity, or taken as a recorded answer input |
| `LineageRecords.GapsExactly` | mindsos_intelligence/excision.py:494-550 | and has exactly the gaps of the record: declarations or their fields, origins, this origin, or a source missing |
| `LineageRecords.ParentsExactly` | mindsos_intelligence/excision.py:512-540 | its parents are exactly what the step that made it consumed, or the recorded sources in the Episode that it was carried over from; a copy is of a sole source of the same DataState |
| `Episodes.CopyIsOfItsOneParent` | mindsos_intelligence/excision.py:534-540 | a copy has one parent, of the same DataState, and was not produced in its own run |
| `CopyClasses.RootsDecideSameValue` | mindsos_intelligence/excision.py:560-582 | two values have one root exactly when the equivalence closure of copying relates them |
| `CopyClasses.Copies.Root` | mindsos_intelligence/excision.py:579-582 | following the aliases ends, at the root |
| `CopyClasses.Copies.Link` | mindsos_intelligence/excision.py:569-572 | joining two roots adds the one pair to the copy relation and keeps the forest |
| `Lineages.Build` | mindsos_intelligence/excision.py:557-577 | every value's facts, the copy classes of all recorded copies, and each mark under its root |
| `Lineages.Leaned` | mindsos_intelligence/excision.py:587-613 | a value is listed exactly when something it descends from has a gap or is a copy of something marked, and the entry names all of those and nothing else |
| `Lineages.Walk` | mindsos_intelligence/excision.py:615-617 | exactly the values with an entry, each with its own |
| `Lineages.UnlistedHasNoModel` | mindsos_intelligence/excision.py:587-613 | an unlisted value has no gap and no marked copy anywhere in its lineage |
| `LineageRecords.DescendantIsListed` | mindsos_intelligence/excision.py:587-613 | whatever is drawn over recorded edges, in any number of runs, from a copy of a marked value is listed with that value |
| `LineageRecords.DescendantHasGap` | mindsos_intelligence/excision.py:587-613 | and from a value with a gap, with that gap |
| `LineageRecords.StepIsListed` | mindsos_intelligence/excision.py:512-613 | one step: what is made from a marked value or one with a gap is listed |
| `LineageRecords.GapIsBelow` | mindsos_intelligence/excision.py:587-613 | each gap listed is of a value on a chain of draws |
| `LineageRecords.ModelIsBelow` | mindsos_intelligence/excision.py:587-613 | each model value listed is marked by the record and a copy, by carryings over, of one on a chain of draws |
| `Substitutes.PairingNeverChains` | mindsos_capacity/admission.py:181-208 | what stands in for a reader is itself no reader: nothing pairs with it, the reader and itself included |
| `Substitutes.RedeclaredReaderKeeps` | mindsos_capacity/admission.py:181-208 | a reader declared anew keeps a substitute exactly if it still is a reader, takes the same inputs beside the answers and still makes all the substitute makes |
| `Substitutes.PairedShareInputs` | mindsos_capacity/admission.py:201-205 | all substitutes that pair with one reader take the same inputs, some of the reader's, none carrying the answer |
| `Substitutes.Scope.SubstitutesAreAll` | mindsos_capacity/capacity_layer.py:695-720 | the substitutes of a reader are exactly those in scope that name it, Local shadowing Global, each once and in IRI order, and the reader resolves |
| `Substitutes.OnlyItsOwnRunDecides` | mindsos_intelligence/excision.py:307-329 | two dispatchers and checks that agree on one dispatch and one check give one run; a substitute that writes or does not make the value gets no verdict from any |
| `Substitutes.FailuresExactly` | mindsos_intelligence/excision.py:307-329 | why a substitute's run comes to nothing: it writes, does not make the value, failed or made something else, or was not judged; the first that applies is named |
| `Substitutes.Scope.PairsAre` | mindsos_capacity/admission.py:181-208 | a substitute pairs with a reader exactly when the reader as now declared, Local first, is one, and it takes just the reader's inputs beside the answers, in order, makes some of its outputs only, and neither consults the model nor takes answers |
| `ModelIndependence.ProofIgnoresTheModel` | mindsos_intelligence/excision.py:730-867 | whether something is proven is the same for any two dispatchers that agree on the recorded inputs of the substitutes of what it rests on |
| `ModelIndependence.SameCases` | mindsos_intelligence/excision.py:797-867 | so are all the cases of a model-made value |
| `Tallies.RunFits` | mindsos_intelligence/excision.py:840-850 | one more substitute run keeps the tally in step with the cases gone through |
| `Tallies.BlockFits` | mindsos_intelligence/excision.py:834-839 | one more substitute with unproven inputs likewise |
| `ProofSteps.ProvenOne` | mindsos_intelligence/excision.py:750-795 | a value is proven exactly when it is sound and everything it needs is proven |
| `ProofSteps.ViableShareInputs` | mindsos_intelligence/excision.py:817-836 | whichever substitute can be run, the values a model-made value needs are the same |
| `ProofSteps.LoopAnswers` | mindsos_intelligence/excision.py:737-741 | a value met again while in progress is on a loop, so naming the loop answers for it |
| `ProofSteps.PlainAnswers` | mindsos_intelligence/excision.py:756-795 | a plain value's own record and its parents' answers, added up, answer for it |
| `ProofSteps.RereadAnswers` | mindsos_intelligence/excision.py:797-867 | a model-made value's stops, its inputs' answer and its substitutes' verdict answer for it |
| `Provers.OneVerdictAnswered` | mindsos_intelligence/excision.py:730-748 | any two answers for a value agree on the verdict, are the same report when it is proven, and off loops name the same stops |
| `ProofSteps.ProvenRestsOnAgreement` | mindsos_intelligence/excision.py:797-867 | whatever a proven value rests on is recorded throughout, and what the model made of it re-derives by an agreeing substitute, none disagreeing, from proven values |
| `Proofs.RefusalsNamed` | mindsos_intelligence/excision.py:820-836 | a substitute is passed over for the first of: reading the mental model, no longer pairing, taking a withheld answer, inputs not there once each |
| `ProofRecords.ModelMadeExactly` | mindsos_intelligence/excision.py:658-760 | re-derivation is asked for exactly of values that a step recorded as consulting the model made or that have a model reading put down by their step |
| `ProofRecords.CaseExactly` | mindsos_intelligence/excision.py:797-850 | a substitute agrees exactly when it is not passed over and, run on the one value of each input that the step consumed, makes the DataState, judged to agree with the recorded value; likewise disagrees, and is blocked for missing inputs |
| `ProofRecords.HandedExactly` | mindsos_intelligence/excision.py:830-843 | a substitute is handed exactly the recorded values of what the step consumed, one for each input |
| `ProofRecords.SoundExactly` | mindsos_intelligence/excision.py:750-867 | a value is sound exactly when the record has no gap of it and: the model made it and it re-derives; or it is no loose answer and its step's reads are recorded, without the mental model or an origin record; or it is such a start and not the model's |
| `ProofMeanings.NeedsExactly` | mindsos_intelligence/excision.py:750-836 | a proof asks next for what runnable substitutes would be handed, of a model-made value, and otherwise for what the value was drawn from |
| `ProofMeanings.ProvenExactly` | mindsos_intelligence/excision.py:730-867 | proven exactly when along every chain of asking each value stands by the record and none comes twice |
| `ProofMeanings.ModelValuesAreRederived` | mindsos_intelligence/excision.py:658-867 | a value the model made or read that a proven value rests on had a substitute run on the recorded inputs and agree, and none disagree |
| `ProofMeanings.NoInterpretedStart` | mindsos_intelligence/excision.py:779-792 | no start that a model capacity interpreted is under a proven value |
| `ProofMeanings.ReportExactly` | mindsos_intelligence/excision.py:697-795 | a proven value's report: premises are the given and interpreted starts it rests on, roles those declared read by the steps, interpretations and agreeing substitutes on the way, re-derived all that the model made |
| `ProofMeanings.RederivationExactly` | mindsos_intelligence/excision.py:797-867 | a re-derivation names the step's capacity and, for each substitute in order, its verdict |
| `ProofMeanings.MadeStops` | mindsos_intelligence/excision.py:797-862 | the reasons against a model-made value before its inputs are looked into, all of them |
| `ProofMeanings.MadeVerdicts` | mindsos_intelligence/excision.py:845-862 | and once they are proven: that a substitute disagrees, or else that none agrees |
| `ProofMeanings.StepStopsAre` | mindsos_intelligence/excision.py:750-778 | the reasons against a step's output, all of them |
| `ProofMeanings.StartStopsAre` | mindsos_intelligence/excision.py:750-795 | the reasons against a start, all of them |
| `Provers.Prover.Prove` | mindsos_intelligence/excision.py:730-748 | whatever is in the memo and in progress, the answer is the value's own: not proven exactly when something it rests on is unsound or on a loop; if proven, premises, roles and re-derivations exactly those reached; nothing named without cause; off loops all causes named |
| `Provers.Prover.Rederive` | mindsos_intelligence/excision.py:797-867 | the same for a model-made value, through all its substitutes |
| `Provers.Prover.Try` | mindsos_intelligence/excision.py:820-850 | one substitute keeps the value's standing: passed over, blocked by its inputs, or run |
| `Provers.OwnPartOf` | mindsos_intelligence/excision.py:750-795 | a plain value's own stops, premise and roles, before its parents |
| `Provers.ProveAlone` | mindsos_intelligence/excision.py:893-904 | a fresh prover answers for its value, and only values of the Episode are asked about |
| `Provers.ProvenWalk` | mindsos_intelligence/excision.py:907-919 | one prover for all listed values, in any order, answers for each as a fresh one would |
| `MapFold.SpliceIsRecomputation` | mindsos_intelligence/execution.py:953-1022 | a splice into the carriers of a fan-out is the fan-out over the changed outcomes; for the ids exactly when the place is not beyond the next one |
| `MapFold.CollectionOriginAdds` | mindsos_intelligence/execution.py:224-237 | over members one after the other the collection's origin is all their producers in order, or unrecorded as soon as one completed member's is not produced; a stopped member adds nothing |
| `MapFold.Board.RunAll` | mindsos_intelligence/execution.py:1027-1060 | the fan-out's carriers: values compact, ids, mask and origins by place; stopped when any member is |
| `MapFold.Board.RerunOne` | mindsos_intelligence/execution.py:953-1026 | one re-run member is replaced, inserted or removed at the count of completed members before it, or refused when the lists disagree |
| `MapFold.RunThenRerun` | mindsos_intelligence/execution.py:953-1060 | re-runs go on up to the first place that is no member's, so to the end exactly when there is none; then the carriers are those of one fan-out over the outcomes then, completed exactly when each of these is |
| `MapFold.LatestOutcomes` | mindsos_intelligence/execution.py:953-1060 | and then each member's outcome is its latest re-run's, or its first |
| `MapFold.FoldNeedsEveryMember` | mindsos_intelligence/execution.py:1447-1490 | the reducer runs exactly when there are members and all completed, on their values in member order; a stopped one means partial, none at all empty |
| `MapFold.FoldWithoutAMap` | mindsos_intelligence/execution.py:1447-1490 | without a mask a fold decides as after a map all of whose members completed; lists out of step are an error whatever else |
| `MapFold.RunFlatMember` | mindsos_intelligence/execution.py:1148-1242 | attempts go on only past failures that may be tried again, two at most; outcome and graph are the last attempt's |
| `Executors.Executor.Submit` | mindsos_intelligence/executor.py:110-142 | refused once stopping; otherwise pending under its id, in its tier, with its score or the tier's default, and lost is exactly what waited there; preempts what it outranks when asked |
| `Executors.Executor.WritePriority` | mindsos_intelligence/executor.py:144-181 | a pending entry is replaced by one with the tier and score given, its future and its token, a running one changed in place, anything else ignored |
| `Executors.ElevatedIsFirst` | mindsos_intelligence/executor.py:161-163 | a tier alone makes a pending task strictly first among that tier's pending ones, and scores it above that tier's running ones |
| `Executors.OutrankingFollowsOrder` | mindsos_intelligence/executor.py:200-209 | what preempts a running task would also come before it, and two tasks never preempt each other |
| `Executors.OutranksLessTheMargin` | mindsos_intelligence/executor.py:200-209 | an arrival outranks a running task exactly when it would precede it even with the margin off its score |
| `Executors.TierDecides` | mindsos_intelligence/executor.py:61-65 | between tiers critical work comes first, then foreground, background and dreams, whatever the scores |
| `Executors.ArrivalIsLast` | mindsos_intelligence/executor.py:61-65 | an arrival comes after everything pending of its tier with at least its score |
| `Executors.TopOfTier` | mindsos_intelligence/executor.py:195-198 | above every pending and running score of the tier, the default when there is none |
| `Executors.Executor.PopLive` | mindsos_intelligence/executor.py:211-216 | nothing comes out exactly when nothing is pending; otherwise the least pending entry by tier, score and sequence |
| `Executors.Executor.Take` | mindsos_intelligence/executor.py:221-232 | a worker leaves exactly when stopping with nothing pending, and otherwise takes up the first pending entry |
| `Executors.Perform` | mindsos_intelligence/executor.py:68-265 | over any run every piece of work waits, was started once, or was superseded; with fresh ids none is lost |
| `Executors.Drain` | mindsos_intelligence/executor.py:183-185 | with nothing more handed in, entries start in the order `pending_order` gives |
| `Executors.OneOrder` | mindsos_intelligence/executor.py:183-185 | that order is unique |
| `Executors.DuplicateLosesATask` | mindsos_intelligence/executor.py:133-134 | an id submitted twice while pending loses the first piece of work |
| `Registries.ElementRegistry.Add` | mindsos_instances/registry.py:99-110 | added unless the id is an instance's or in use, and then nothing changes |
| `Registries.ElementRegistry.Remove` | mindsos_instances/registry.py:124-145 | gone, from instances and ids in use, are exactly the instance and what contains it at any depth; it ends on any containment |
| `Registries.ElementRegistry.RemoveAll` | mindsos_instances/registry.py:138-145 | composites removed one after the other leave what one cascade from all would |
| `Registries.ElementRegistry.CascadeReferencing` | mindsos_instances/registry.py:272-294 | exactly the referrers of an id and what contains them are gone |
| `Registries.ElementRegistry.OnGraphRemove` | mindsos_instances/registry.py:261-270 | and nothing left references the element |
| `Registries.ElementRegistry.OnMetagraphRemove` | mindsos_instances/registry.py:226-259 | after a graph's removal nothing left references it or anything in it, and only referrers and their containers are gone |
| `Registries.CascadesAdd` | mindsos_instances/registry.py:138-145 | one cascade after another is one cascade from both |
| `Registries.WhatGoes` | mindsos_instances/registry.py:124-145 | what goes is a seed or a composite with a member that goes, and every such one goes |
| `Registries.ReferrersAre` | mindsos_instances/registry.py:272-294 | who refers to what leaves: an instance of it or a part of a graph that lists it; no composite |
| `Registries.NothingLeftContains` | mindsos_instances/registry.py:124-145 | no composite left contains anything that went |
| `DeepCopies.DeepCopy` | mindsos_core/metagraph_snapshot.py:193-217 | objects that are all new, one for each reached, hold the same contents joined in the same way, and nothing else changes |
| `DeepCopies.CopiedTwice` | mindsos_core/metagraph_snapshot.py:269-276 | a copy of a copy is a copy of the first |
| `GraphSnaps.Graph.Snap` | mindsos_core/metagraph_snapshot.py:187-202 | a graph's four dicts copied, each apart from the others, into new objects |
| `GraphSnaps.Graph.Restore` | mindsos_core/metagraph_snapshot.py:263-282 | the same dicts, refilled each from a copy of its own, the dirty sets as saved |
| `GraphSnaps.SharedWithinADict` | mindsos_core/metagraph_snapshot.py:193-196 | in a copied graph two paths meet exactly if they start in one dict and met before |
| `GraphSnaps.EndpointsComeApart` | mindsos_core/models/edge.py:48-49 | in a copied graph every endpoint and member is one of the node objects filed exactly if there is no edge and no hyperedge |
| `GraphRestores.RestoreGraphs` | mindsos_core/metagraph_snapshot.py:256-303 | survivors are the same objects, others new ones; each is a copy apart of what was saved; dirty as saved in the survivors, in no other |
| `CrossReferences.Reindex` | mindsos_core/metagraph_snapshot.py:327-337 | new cross references with the saved rows, and both inverse indexes exactly theirs |
| `Snapshots.Metagraph.Capture` | mindsos_core/metagraph_snapshot.py:171-228 | everything covered, copied dict by dict into objects that are all new, and dirty as it was |
| `Snapshots.Metagraph.Restore` | mindsos_core/metagraph_snapshot.py:232-362 | everything covered is a copy of the snapshot again, in new objects under the same dicts and registry, surviving graphs the same objects, both inverse indexes exact, the snapshot as it was; what was dirty is back exactly when no graph gone since was dirty; another metagraph's snapshot is refused with nothing changed |
| `SnapshotTrips.RoundTrip` | mindsos_core/metagraph_snapshot.py:171-362 | capture, any use, restore, any use, restore: the captured state, up to which objects hold it |
| `SnapshotTrips.EndpointsOfTheCopy` | mindsos_core/models/edge.py:48-49 | in what was captured or restored the endpoints are a graph's own node objects exactly if it has no edge and no hyperedge |
| `SnapshotTrips.SharedWithinOneDict` | mindsos_core/metagraph_snapshot.py:187-202 | of all that graphs share, exactly what one dict shares with itself is shared in the copy |
| `SnapshotTrips.RemoveAndRestore` | mindsos_core/metagraph_snapshot.py:283-303 | a dirty graph removed and restored: all is as it was but what was dirty |
| `SnapshotTrips.DirtyIsLost` | mindsos_core/metagraph_snapshot.py:283-303 | such a run, of one graph with one dirty edge |
| `Identities.IdentityRegistry.Register` | mindsos_core/models/identity.py:172-176 | an id is refused exactly when in use, and is in use after |
| `GroundingWriters.Writer.Seed` | mindsos_intelligence/capacity_mm_writer.py:176-179 | a new value node under the next number, now the current one of its DataState, unless the printed id is in use; then nothing but the number used up |
| `GroundingWriters.Writer.Root` | mindsos_intelligence/capacity_mm_writer.py:181-194 | the raw task's node, refused with nothing changed exactly when its printed id is in use |
| `GroundingWriters.Writer.Record` | mindsos_intelligence/capacity_mm_writer.py:324-356 | refused with only its number used up exactly when the capacity's id is in use; otherwise one capacity node consuming the current instances of the inputs known, and the outputs in order, each a new current value it alone produced, up to the first whose id is in use or was taken by one before it; a CONSUMES edge comes from exactly the instances current for the inputs, a PRODUCES edge goes to exactly those of the outputs written; no other node and no other edge is new |
| `GroundingWriters.Writer.RecordStopped` | mindsos_intelligence/capacity_mm_writer.py:358-427 | done exactly when the reason is one after dispatch and neither the capacity's id nor the terminal node's is in use; the invocation stays when only the latter is, produces nothing, hangs off exactly the instances current for its inputs, and the one terminal node points at it; nothing else is new |
| `GroundingWriters.Writer.RecordAlone` | mindsos_intelligence/capacity_mm_writer.py:429-531 | the terminal node, with its reason, and nothing else, refused exactly when its id is in use |
| `Grounding.GroundingIsAcyclic` | mindsos_intelligence/capacity_mm_writer.py:324-427 | nothing in a run's grounding graph derives from itself |
| `Grounding.ValuesAreAccountedFor` | mindsos_intelligence/capacity_mm_writer.py:571-583 | a value has one producer at most, and the index has each DataState's latest instance, holding the last value written |
| `NodeIds.PrintedAlike` | mindsos_capacity/identifiers.py:515-615 | two node ids of one run print the same exactly if they differ at most in how the type is named |
| `NodeIds.OneNameIsEnough` | mindsos_capacity/identifiers.py:544-604 | a run that calls each type by one name gives its nodes different ids |
| `NodeIds.PrintedAcrossRuns` | mindsos_capacity/identifiers.py:515-615 | with `#` in no type name and `.` in no run reference, equal ids are one request's, one run's unless they are the raw task's, and one node's up to how the type is named |
| `GroundingRuns.Perform` | mindsos_core/models/graph.py:211-220 | over any calls on the writers of any number of runs in one metagraph, no two nodes have one printed id |
| `GroundingRuns.NoIdTwice` | mindsos_core/models/identity.py:172-176 | while writers are sound and apart, equal ids are one writer's id of one node |
| `GroundingRuns.OneMoreCall` | mindsos_intelligence/capacity_mm_writer.py:176-427 | whatever one writer adds, all of them stay sound and apart |
| `GroundingRuns.ValueRefused` | mindsos_intelligence/capacity_mm_writer.py:571-583 | a value is refused exactly when its DataState has more numbers under another name or its id is in use elsewhere |
| `GroundingRuns.CapacityRefused` | mindsos_intelligence/capacity_mm_writer.py:339-350 | an invocation likewise |
| `GroundingRuns.RootRefused` | mindsos_intelligence/capacity_mm_writer.py:181-194 | a root exactly when there is one of the raw task under either name, or its id is in use elsewhere |
| `GroundingRuns.MarkRefused` | mindsos_intelligence/capacity_mm_writer.py:512-531 | the terminal node and the manifest exactly when there is one, or the id is in use elsewhere |
| `GroundingRuns.OutputRefused` | mindsos_intelligence/capacity_mm_writer.py:351-355 | an output exactly when it would be as a value by itself, or one before it is its DataState under another name with as many numbers |
| `GroundingRuns.OneNameIsTaken` | mindsos_intelligence/capacity_mm_writer.py:571-583 | where each DataState goes by one name, only what is in use elsewhere refuses a value |
| `GroundingRuns.SecondNameRefused` | mindsos_intelligence/capacity_mm_writer.py:571-583 | a DataState seeded by its bare name, then by its full one: refused; by its full one again: not |
| `RunRefs.RoundTrip` | mindsos_intelligence/episode_reader.py:96-115 | the key read from the role of a run is its position, attempt and retry, at any nesting |
| `RunRefs.RolesAreDistinct` | mindsos_intelligence/capacity_mm_writer.py:109-127 | within one request two runs with one role are the same run |
| `RunRefs.RoleParts` | mindsos_intelligence/execution.py:1173-1176 | a run reference becomes, as a role, the position's key with attempt and retry after it |
| `RunRefs.LatestByPosition` | mindsos_intelligence/episode_reader.py:118-133 | of each position one run is kept, none of it more recent and none before it as recent, and all anchors without a role, in order |
| `EditDistance.LevenshteinDistance` | mindsos_admin/similarity.py:429-454 | two rows, swapped operands and early exits compute the recursive distance |
| `EditDistance.Symmetric` | mindsos_admin/similarity.py:429-454 | the same both ways |
| `EditDistance.Triangle` | mindsos_admin/similarity.py:429-454 | no detour is shorter |
| `EditDistance.ZeroIffEqual` | mindsos_admin/similarity.py:435-436 | 0 exactly on equal strings |
| `EditDistance.Bounds` | mindsos_admin/similarity.py:437-440 | between the difference of the lengths and the longer one |
| `EditDistance.NoFewerEdits` | mindsos_admin/similarity.py:429-454 | no chain of single-character edits is shorter than the distance |
| `EditDistance.EnoughEdits` | mindsos_admin/similarity.py:429-454 | a chain of that length exists |
| `Similarity.ScoreLevenshtein` | mindsos_admin/similarity.py:396-416 | undefined exactly when a tail is empty, otherwise the share of the longer tail not edited |
| `Similarity.NameScoreIsSimilarity` | mindsos_admin/similarity.py:396-416 | in [0, 1], 1 exactly on equal tails, symmetric |
| `Similarity.JaccardIsSimilarity` | mindsos_admin/similarity.py:668-679 | in [0, 1], symmetric, 1 exactly on equal sets, 0 exactly on disjoint ones |
| `Similarity.JaccardTriangle` | mindsos_admin/similarity.py:668-679 | 1 minus the index satisfies the triangle inequality |
| `Similarity.ScoreIsBetween` | mindsos_admin/similarity.py:365-386 | defined exactly when a component is, and between the least and the greatest of those defined |
| `Similarity.ScoreIsTheWeightedMean` | mindsos_admin/similarity.py:323-386 | weights 0.4, 0.4 and 0.2, an undefined component dropping out with its weight |
| `Similarity.IriTail` | mindsos_admin/similarity.py:419-426 | what follows the last colon, or all of it |

## Left out

- Agreement.PhasesAgree: one way only; with a capacity that chooses on a cycle the search may still succeed, depending on the IRI order of producers and on which other producers there are. `AnyOfLimits` shows both failures.
- BfsFinder.ShortestOfAllThatRun: one way only; a catalog with a capacity outside the condition may still be searched completely, depending on what else there is and on the order in which consumers and outputs are gone through. `BfsLimits` and `BfsShortcuts` show the failures.
- RouteForm.WellFormedRouteRuns: an input named `context`, which the input check never counts as one; a DataState's IRI is not that.
- Provers.Prover.Prove: for a value on or above a loop the reasons named beside the verdict depend on the order of proving; each has a cause, but not all causes are named.
- Proofs.Evidence.FoundFor: a reader that declares an origin-record DataState among its inputs; only plain values are looked up.
- MapFold.Board.RerunOne: the positional splice into carriers from before the completed mask existed, and runs that keep no grounding ids.
- Snapshots.Metagraph.Restore: the dict of graphs, the per-kind dirty sets and a cross reference's own row are values here; schemas are shared by reference, as in the code; a graph built anew has no observers.
- GroundingWriters.Writer.Record: edge ids, which are fresh UUIDs; the properties of the terminal node beside its reason; the removal of graphs, which frees ids; empty request ids and run references, which the id builders refuse.
- Executors.Perform: futures' results, cancellation tokens beyond being asked for, the resource ledger and the worker threads' waiting.
- Registries.ElementRegistry.Add: building composites (`add_member` and its cycle check), and observers on graphs added later.
- The error texts, exceptions as such, and the manifest's prose fields.
- `successors_of`, `find_pipeline` and route serialisation in `pipeline.py`; the variants `fold_over_max`, `fp_ds` and `fp_cons`.
- Nested sub-plans of a map and the no-route graphs they leave; replanning.
- `identify`, `show` and `rerun` in `excision.py`, and the check that no model client is bound.
- SHA hashing, rounding to six decimals, the structural feature extractors, similarity thresholds and report ids.
- Storage, sessions, permissions, locks, schemas and IRI validation.
